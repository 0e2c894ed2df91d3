/**
 Base32, section 6 of RFC 4648, as TOTP secrets are written.  The encoder never pads; the
 decoder skips '=', ' ' and '-', takes either case and asks nothing of the length or of the
 last bits.  Both run on a signed 32-bit accumulator that is never masked.
 */
module Base32 {
  import opened Prelude
  import opened Words

  const LETTERS := "ABCDEFGHIJKLMNOPQRSTUVWXYZ"
  const DIGITS := "234567"
  const ALPHABET := LETTERS + DIGITS

  /** The position of a character in the alphabet, -1 outside it. */
  function CharValue(c: char): int {
    if 'A' <= c <= 'Z' then c as int - 'A' as int
    else if '2' <= c <= '7' then c as int - '2' as int + 26 else -1
  }

  function Upper(c: char): char {
    if 'a' <= c <= 'z' then (c as int - 32) as char else c
  }

  function Lower(c: char): char {
    if 'A' <= c <= 'Z' then (c as int + 32) as char else c
  }

  predicate Skipped(c: char) {
    c == '=' || c == ' ' || c == '-'
  }

  /** What the decoder reads of a text: separators dropped, letters raised. */
  function Cleaned(input: string): string {
    if input == "" then ""
    else if Skipped(Last(input)) then Cleaned(Front(input))
    else Cleaned(Front(input)) + [Upper(Last(input))]
  }

  predicate InAlphabet(text: string) {
    forall i :: 0 <= i < |text| ==> CharValue(text[i]) >= 0
  }

  function Values(text: string): seq<int> {
    seq(|text|, i requires 0 <= i < |text| => CharValue(text[i]))
  }

  /** The characters of `text` carry the bits of `data`, and zeros to fill the last character. */
  ghost predicate Encodes(data: seq<int>, text: string) {
    && InAlphabet(text)
    && |text| == (8 * |data| + 4) / 5
    && Stream(Values(text), 5) == Stream(data, 8) + Zeros(5 * |text| - 8 * |data|)
  }

  /** `data` is the whole bytes among the bits that `input` carries. */
  ghost predicate Decodes(input: string, data: seq<int>) {
    var text := Cleaned(input);
    && InAlphabet(text)
    && Within(data, 8)
    && |data| == 5 * |text| / 8
    && 8 * |data| <= |Stream(Values(text), 5)|
    && Stream(data, 8) == Stream(Values(text), 5)[..8 * |data|]
  }

  lemma {:induction false} LetterValue(i: nat)
    requires i < 26
    ensures CharValue(LETTERS[i]) == i
  {
  }

  lemma {:induction false} DigitValue(i: nat)
    requires i < 6
    ensures CharValue(DIGITS[i]) == i + 26
  {
  }

  lemma {:induction false} AlphabetValue(i: nat)
    requires i < 32
    ensures CharValue(ALPHABET[i]) == i
  {
    if i < 26 { LetterValue(i); } else { DigitValue(i - 26); }
  }

  lemma {:induction false} ValueOfOneChar(c: char, d: char)
    requires CharValue(c) == CharValue(d) >= 0
    ensures c == d
  {
  }

  // ------------------------------------------------------------------ the methods

  method Encode(data: seq<int>) returns (text: string)
    requires Within(data, 8)
    ensures Encodes(data, text)
  {
    text := "";
    var buffer: int := 0;
    var bitsLeft: nat := 0;
    NothingYet(8, 5);
    assert Values("") == [];
    for i := 0 to |data|
      invariant bitsLeft < 5
      invariant Written(data[..i], text, buffer, bitsLeft)
    {
      text, buffer, bitsLeft := TakeByte(data[i], text, buffer, bitsLeft, data[..i]);
      assert data[..i + 1] == data[..i] + [data[i]];
    }
    assert data[..|data|] == data;
    if bitsLeft > 0 {
      var quintet := LastQuintet(buffer, bitsLeft, 5 - bitsLeft);
      LastCharacter(data, text, buffer, bitsLeft, quintet);
      text := text + [ALPHABET[quintet]];
    } else {
      NothingLeft(data, text, buffer);
    }
  }

  /** The text so far and the low bits of the accumulator carry the bytes taken. */
  ghost predicate Written(taken: seq<int>, text: string, buffer: int, bits: nat) {
    InAlphabet(text) && Regrouped(taken, 8, Values(text), 5, buffer, bits)
  }

  /** One byte in, one or two characters out. */
  method TakeByte(byte: nat, text0: string, buffer0: int, bits0: nat, ghost taken: seq<int>)
    returns (text: string, buffer: int, bitsLeft: nat)
    requires byte < Pow2(8) && bits0 < 5 && Written(taken, text0, buffer0, bits0)
    ensures bitsLeft < 5 && Written(taken + [byte], text, buffer, bitsLeft)
  {
    text := text0;
    buffer := ShiftInSigned(buffer0, 8, byte, taken, Values(text), 5, bits0);
    bitsLeft := bits0 + 8;
    while bitsLeft >= 5
      invariant Written(taken + [byte], text, buffer, bitsLeft)
    {
      bitsLeft := bitsLeft - 5;
      text := GiveQuintet(text, buffer, bitsLeft, taken + [byte]);
    }
  }

  /** `out += alphabet[(buffer >> bits_left) & 0x1F]`. */
  method GiveQuintet(text0: string, buffer: int, bitsLeft: nat, ghost taken: seq<int>) returns (text: string)
    requires Written(taken, text0, buffer, bitsLeft + 5)
    ensures Written(taken, text, buffer, bitsLeft)
  {
    var quintet := ShiftOut(buffer, bitsLeft, 0x1F, taken, 8, Values(text0), 5);
    WriteValue(text0, quintet);
    text := text0 + [ALPHABET[quintet]];
  }

  lemma {:induction false} WriteValue(text: string, v: nat)
    requires v < 32 && InAlphabet(text)
    ensures InAlphabet(text + [ALPHABET[v]]) && Values(text + [ALPHABET[v]]) == Values(text) + [v]
  {
    AlphabetValue(v);
  }

  /** `(buffer << room) & 0x1F`: the bits left over, with zeros behind them. */
  method LastQuintet(buffer: int, bits: nat, room: nat) returns (v: nat)
    requires bits + room == 5
    ensures v < 32 && Bits(v, 5) == Bits(buffer, bits) + Zeros(room)
  {
    var shifted := Shl(buffer, room);
    assert Pow2(5) == 32;
    BitsOfMasked(S32(shifted), 5);
    AndMask(S32(shifted), 5);
    WrapKeepsLowBits(shifted, 5);
    ShlZeros(buffer, bits, room);
    v := And(S32(shifted), 0x1F);
  }

  lemma {:induction false} LastCharacter(data: seq<int>, text: string, buffer: int, bits: nat, v: nat)
    requires 0 < bits < 5 && Written(data, text, buffer, bits)
    requires v < 32 && Bits(v, 5) == Bits(buffer, bits) + Zeros(5 - bits)
    ensures Encodes(data, text + [ALPHABET[v]])
  {
    WriteValue(text, v);
    StreamSnoc(Values(text), v, 5);
    StreamLength(Values(text), 5);
    Assoc(Stream(Values(text), 5), Bits(buffer, bits), Zeros(5 - bits));
  }

  lemma {:induction false} NothingLeft(data: seq<int>, text: string, buffer: int)
    requires Written(data, text, buffer, 0)
    ensures Encodes(data, text)
  {
    assert Stream(Values(text), 5) + Bits(buffer, 0) == Stream(Values(text), 5);
    assert Stream(data, 8) + Zeros(0) == Stream(data, 8);
  }

  method Decode(input: string) returns (result: Result<seq<int>>)
    ensures result.Ok? <==> InAlphabet(Cleaned(input))
    ensures result.Ok? ==> Decodes(input, result.value)
    ensures result.Err? ==> result.error == "invalid base32 character in TOTP secret"
  {
    var out: seq<int> := [];
    ghost var text := "";
    var buffer: int := 0;
    var bitsLeft: nat := 0;
    NothingYet(5, 8);
    assert Values("") == [];
    for i := 0 to |input|
      invariant bitsLeft < 8
      invariant text == Cleaned(input[..i]) && InAlphabet(text)
      invariant Regrouped(Values(text), 5, out, 8, buffer, bitsLeft)
    {
      CleanNext(input, i);
      if Skipped(input[i]) {
        continue;
      }
      var upper := Upper(input[i]);
      var pos := CharValue(upper);
      if pos < 0 {
        BadCharacterIsRefused(input, i);
        return Err("invalid base32 character in TOTP secret");
      }
      ReadValue(text, upper);
      out, buffer, bitsLeft := TakeQuintet(pos, out, buffer, bitsLeft, Values(text));
      text := text + [upper];
    }
    assert input[..|input|] == input;
    WholeBytes(input, out, buffer, bitsLeft);
    return Ok(out);
  }

  method TakeQuintet(value: nat, out0: seq<int>, buffer0: int, bits0: nat, ghost taken: seq<int>)
    returns (out: seq<int>, buffer: int, bitsLeft: nat)
    requires value < Pow2(5) && bits0 < 8 && Regrouped(taken, 5, out0, 8, buffer0, bits0)
    ensures bitsLeft < 8 && Regrouped(taken + [value], 5, out, 8, buffer, bitsLeft)
  {
    out := out0;
    buffer := ShiftInSigned(buffer0, 5, value, taken, out, 8, bits0);
    bitsLeft := bits0 + 5;
    if bitsLeft >= 8 {
      bitsLeft := bitsLeft - 8;
      var byte := ShiftOut(buffer, bitsLeft, 0xFF, taken + [value], 5, out, 8);
      out := out + [byte];
    }
  }

  lemma {:induction false} CleanNext(input: string, i: nat)
    requires i < |input|
    ensures Cleaned(input[..i + 1]) == if Skipped(input[i]) then Cleaned(input[..i]) else Cleaned(input[..i]) + [Upper(input[i])]
  {
    assert Front(input[..i + 1]) == input[..i];
  }

  lemma {:induction false} ReadValue(text: string, c: char)
    requires InAlphabet(text) && CharValue(c) >= 0
    ensures InAlphabet(text + [c]) && Values(text + [c]) == Values(text) + [CharValue(c)] && CharValue(c) < Pow2(5)
  {
    assert Pow2(5) == 32;
  }

  /** What is read early stays in what is read. */
  lemma {:induction false} CleanedGrows(input: string, rest: string)
    ensures Cleaned(input + rest) == Cleaned(input) + Cleaned(rest)
  {
    if rest == "" {
      assert input + rest == input;
    } else {
      assert Front(input + rest) == input + Front(rest) && Last(input + rest) == Last(rest);
      CleanedGrows(input, Front(rest));
    }
  }

  lemma {:induction false} BadCharacterIsRefused(input: string, i: nat)
    requires i < |input| && !Skipped(input[i]) && CharValue(Upper(input[i])) < 0
    ensures !InAlphabet(Cleaned(input))
  {
    CleanNext(input, i);
    CleanedGrows(input[..i + 1], input[i + 1..]);
    assert input[..i + 1] + input[i + 1..] == input;
    assert Cleaned(input)[|Cleaned(input[..i])|] == Upper(input[i]);
  }

  lemma {:induction false} WholeBytes(input: string, out: seq<int>, buffer: int, bits: nat)
    requires InAlphabet(Cleaned(input)) && bits < 8 && Regrouped(Values(Cleaned(input)), 5, out, 8, buffer, bits)
    ensures Decodes(input, out)
  {
    StreamLength(out, 8);
    assert Stream(out, 8) == (Stream(out, 8) + Bits(buffer, bits))[..8 * |out|];
  }

  // ------------------------------------------------------------------ the laws

  /** A text has at most one decoding. */
  lemma {:induction false} OneDecoding(text: string, data1: seq<int>, data2: seq<int>)
    requires Decodes(text, data1) && Decodes(text, data2)
    ensures data1 == data2
  {
    StreamInjective(data1, data2, 8);
  }

  lemma {:induction false} SameText(text1: string, text2: string)
    requires InAlphabet(text1) && InAlphabet(text2) && |text1| == |text2| && Stream(Values(text1), 5) == Stream(Values(text2), 5)
    ensures text1 == text2
  {
    assert Pow2(5) == 32;
    StreamInjective(Values(text1), Values(text2), 5);
    forall i | 0 <= i < |text1| ensures text1[i] == text2[i] {
      assert Values(text1)[i] == Values(text2)[i];
      ValueOfOneChar(text1[i], text2[i]);
    }
  }

  /** The encoder writes nothing that the decoder would drop or change. */
  lemma {:induction false} CleanAlready(text: string)
    requires InAlphabet(text)
    ensures Cleaned(text) == text
  {
    if text != "" {
      CleanCharacter(Last(text));
      assert InAlphabet(Front(text)) && text == Front(text) + [Last(text)];
      CleanAlready(Front(text));
    }
  }

  lemma {:induction false} CleanCharacter(c: char)
    ensures CharValue(c) >= 0 ==> !Skipped(c) && Upper(c) == c
  {
  }

  lemma {:induction false} DecodeOfEncode(data: seq<int>, text: string)
    requires Within(data, 8) && Encodes(data, text)
    ensures Decodes(text, data)
  {
    CleanAlready(text);
    StreamLength(data, 8);
    assert Stream(data, 8) == (Stream(data, 8) + Zeros(5 * |text| - 8 * |data|))[..8 * |data|];
  }

  /** Encoding and decoding again gives back the bytes, whatever their number. */
  method RoundTrip(data: seq<int>) returns (result: Result<seq<int>>)
    requires Within(data, 8)
    ensures result == Ok(data)
  {
    var text := Encode(data);
    DecodeOfEncode(data, text);
    result := Decode(text);
    OneDecoding(text, data, result.value);
  }

  /** A skipped character may stand anywhere. */
  lemma {:induction false} SeparatorsDoNotMatter(before: string, c: char, after: string, data: seq<int>)
    requires c == '=' || c == ' ' || c == '-'
    ensures InAlphabet(Cleaned(before + [c] + after)) <==> InAlphabet(Cleaned(before + after))
    ensures Decodes(before + [c] + after, data) <==> Decodes(before + after, data)
  {
    CleanedGrows(before, after);
    CleanedGrows(before + [c], after);
    assert Front(before + [c]) == before;
  }

  function Lowered(input: string): string {
    seq(|input|, i requires 0 <= i < |input| => Lower(input[i]))
  }

  lemma {:induction false} CleanedLower(input: string)
    ensures Cleaned(Lowered(input)) == Cleaned(input)
  {
    if input != "" {
      assert Front(Lowered(input)) == Lowered(Front(input));
      CleanedLower(Front(input));
    }
  }

  /** Neither does the case of the letters. */
  lemma {:induction false} CaseDoesNotMatter(input: string, data: seq<int>)
    ensures InAlphabet(Cleaned(Lowered(input))) <==> InAlphabet(Cleaned(input))
    ensures Decodes(Lowered(input), data) <==> Decodes(input, data)
  {
    CleanedLower(input);
  }

  /** The bits of a text that belong to no byte. */
  ghost function SpareBits(text: string): seq<bool>
    requires InAlphabet(text)
  {
    StreamLength(Values(text), 5);
    Stream(Values(text), 5)[8 * (5 * |text| / 8)..]
  }

  /**
   Decoding and encoding again gives back what was read exactly when fewer than five bits
   were to spare and those are zero.
   */
  lemma {:induction false} EncodeOfDecode(input: string, data: seq<int>, again: string)
    requires Decodes(input, data) && Encodes(data, again)
    ensures var spare := SpareBits(Cleaned(input));
            again == Cleaned(input) <==> |spare| < 5 && spare == Zeros(|spare|)
  {
    var text := Cleaned(input);
    var spare := SpareBits(text);
    StreamLength(Values(text), 5);
    StreamLength(data, 8);
    assert Stream(Values(text), 5) == Stream(data, 8) + spare;
    if |spare| < 5 && spare == Zeros(|spare|) {
      FewSpare(|data|, |again|, |text|, |spare|);
      SameText(again, text);
    }
    if again == text {
      SplitEqual(Stream(data, 8), spare, Stream(data, 8), Zeros(5 * |text| - 8 * |data|));
    }
  }

  lemma {:induction false} FewSpare(bytes: nat, written: nat, read: nat, spare: nat)
    requires written == (8 * bytes + 4) / 5 && bytes == 5 * read / 8 && spare == 5 * read - 8 * bytes
    ensures spare < 5 <==> written == read
  {
  }

  /** The table of section 6 of RFC 4648, and nothing else is in the alphabet. */
  lemma {:induction false} AlphabetIsTheTable(c: char, i: nat)
    requires i < 32
    ensures CharValue(c) == i <==> c == "ABCDEFGHIJKLMNOPQRSTUVWXYZ234567"[i]
  {
    assert ALPHABET == "ABCDEFGHIJKLMNOPQRSTUVWXYZ234567";
    AlphabetValue(i);
    if CharValue(c) == i { ValueOfOneChar(c, ALPHABET[i]); }
  }

  /** A text with any character but these and the alphabet's, in either case, has no decoding. */
  lemma {:induction false} OthersAreRefused(before: string, c: char, after: string)
    requires !(c == '=' || c == ' ' || c == '-' || 'A' <= c <= 'Z' || 'a' <= c <= 'z' || '2' <= c <= '7')
    ensures !InAlphabet(Cleaned(before + [c] + after))
  {
    CleanedGrows(before + [c], after);
    assert Front(before + [c]) == before;
    var text := Cleaned(before + [c] + after);
    assert CharValue(Upper(c)) < 0;
    assert text == Cleaned(before) + [Upper(c)] + Cleaned(after);
    assert text[|Cleaned(before)|] == Upper(c);
  }
}
