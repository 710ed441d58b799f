/**
 * The older revision of the codec (class FastUUIDParser): a parser that checks only the length,
 * skips the four separator positions without looking at them, and decodes digits by character
 * ranges and arithmetic. Its formatter is the same code as the current revision's.
 */
module FastUuidParser {
  import opened Wrappers
  import opened UuidText
  import FastUuid

  /**
   * getHexValueForChar: '0'-'9' give c - 48, 'a'-'f' give c - 87 and 'A'-'F' give c - 55; any
   * other character is refused. The arithmetic agrees with the reference digit values.
   */
  function HexValueForChar(c: char): (r: Option<Nibble>)
    ensures r == DigitValue(c)
  {
    DigitValueRanges(c);
    if '0' <= c <= '9' then Some(NibbleOf(c as int - 48))
    else if 'a' <= c <= 'f' then Some(NibbleOf(c as int - 87))
    else if 'A' <= c <= 'F' then Some(NibbleOf(c as int - 55))
    else None
  }

  /**
   * Sixteen rounds of "shift the accumulator left by four, OR in the next digit", starting from
   * the first digit, place digit j at bits 63-4j .. 60-4j: no digit's bits are shifted out or
   * overlap another's.
   */
  lemma ShiftOrIsPackBits(a0: Nibble, a1: Nibble, a2: Nibble, a3: Nibble, a4: Nibble, a5: Nibble, a6: Nibble, a7: Nibble,
                          a8: Nibble, a9: Nibble, a10: Nibble, a11: Nibble, a12: Nibble, a13: Nibble, a14: Nibble, a15: Nibble)
    ensures ((((((((((((((((((((((((((((((a0 << 4) | a1) << 4) | a2) << 4) | a3) << 4) | a4) << 4) | a5) << 4) | a6) << 4) | a7) << 4) | a8) << 4) | a9) << 4) | a10) << 4) | a11) << 4) | a12) << 4) | a13) << 4) | a14) << 4) | a15)
         == PackBits(a0, a1, a2, a3, a4, a5, a6, a7, a8, a9, a10, a11, a12, a13, a14, a15)
  {
  }

  /**
   * The accumulator after j rounds (j < 16) is the base-16 number of the j digits read so far:
   * digit i sits 4(j-1-i) bits up. Hence it stays below 16^j, and no bit of an earlier digit
   * reaches the top of the word before the sixteenth digit.
   */
  lemma ShiftOrPrefixValue(a0: Nibble, a1: Nibble, a2: Nibble, a3: Nibble, a4: Nibble, a5: Nibble, a6: Nibble, a7: Nibble,
                           a8: Nibble, a9: Nibble, a10: Nibble, a11: Nibble, a12: Nibble, a13: Nibble, a14: Nibble)
    ensures ((a0 << 4) | a1) == (a0 << 4) | a1
    ensures ((((a0 << 4) | a1) << 4) | a2) == (a0 << 8) | (a1 << 4) | a2
    ensures ((((((a0 << 4) | a1) << 4) | a2) << 4) | a3) == (a0 << 12) | (a1 << 8) | (a2 << 4) | a3
    ensures ((((((((a0 << 4) | a1) << 4) | a2) << 4) | a3) << 4) | a4) == (a0 << 16) | (a1 << 12) | (a2 << 8) | (a3 << 4) | a4
    ensures ((((((((((a0 << 4) | a1) << 4) | a2) << 4) | a3) << 4) | a4) << 4) | a5) == (a0 << 20) | (a1 << 16) | (a2 << 12) | (a3 << 8) | (a4 << 4) | a5
    ensures ((((((((((((a0 << 4) | a1) << 4) | a2) << 4) | a3) << 4) | a4) << 4) | a5) << 4) | a6) == (a0 << 24) | (a1 << 20) | (a2 << 16) | (a3 << 12) | (a4 << 8) | (a5 << 4) | a6
    ensures ((((((((((((((a0 << 4) | a1) << 4) | a2) << 4) | a3) << 4) | a4) << 4) | a5) << 4) | a6) << 4) | a7) == (a0 << 28) | (a1 << 24) | (a2 << 20) | (a3 << 16) | (a4 << 12) | (a5 << 8) | (a6 << 4) | a7
    ensures ((((((((((((((((a0 << 4) | a1) << 4) | a2) << 4) | a3) << 4) | a4) << 4) | a5) << 4) | a6) << 4) | a7) << 4) | a8) == (a0 << 32) | (a1 << 28) | (a2 << 24) | (a3 << 20) | (a4 << 16) | (a5 << 12) | (a6 << 8) | (a7 << 4) | a8
    ensures ((((((((((((((((((a0 << 4) | a1) << 4) | a2) << 4) | a3) << 4) | a4) << 4) | a5) << 4) | a6) << 4) | a7) << 4) | a8) << 4) | a9) == (a0 << 36) | (a1 << 32) | (a2 << 28) | (a3 << 24) | (a4 << 20) | (a5 << 16) | (a6 << 12) | (a7 << 8) | (a8 << 4) | a9
    ensures ((((((((((((((((((((a0 << 4) | a1) << 4) | a2) << 4) | a3) << 4) | a4) << 4) | a5) << 4) | a6) << 4) | a7) << 4) | a8) << 4) | a9) << 4) | a10) == (a0 << 40) | (a1 << 36) | (a2 << 32) | (a3 << 28) | (a4 << 24) | (a5 << 20) | (a6 << 16) | (a7 << 12) | (a8 << 8) | (a9 << 4) | a10
    ensures ((((((((((((((((((((((a0 << 4) | a1) << 4) | a2) << 4) | a3) << 4) | a4) << 4) | a5) << 4) | a6) << 4) | a7) << 4) | a8) << 4) | a9) << 4) | a10) << 4) | a11) == (a0 << 44) | (a1 << 40) | (a2 << 36) | (a3 << 32) | (a4 << 28) | (a5 << 24) | (a6 << 20) | (a7 << 16) | (a8 << 12) | (a9 << 8) | (a10 << 4) | a11
    ensures ((((((((((((((((((((((((a0 << 4) | a1) << 4) | a2) << 4) | a3) << 4) | a4) << 4) | a5) << 4) | a6) << 4) | a7) << 4) | a8) << 4) | a9) << 4) | a10) << 4) | a11) << 4) | a12) == (a0 << 48) | (a1 << 44) | (a2 << 40) | (a3 << 36) | (a4 << 32) | (a5 << 28) | (a6 << 24) | (a7 << 20) | (a8 << 16) | (a9 << 12) | (a10 << 8) | (a11 << 4) | a12
    ensures ((((((((((((((((((((((((((a0 << 4) | a1) << 4) | a2) << 4) | a3) << 4) | a4) << 4) | a5) << 4) | a6) << 4) | a7) << 4) | a8) << 4) | a9) << 4) | a10) << 4) | a11) << 4) | a12) << 4) | a13) == (a0 << 52) | (a1 << 48) | (a2 << 44) | (a3 << 40) | (a4 << 36) | (a5 << 32) | (a6 << 28) | (a7 << 24) | (a8 << 20) | (a9 << 16) | (a10 << 12) | (a11 << 8) | (a12 << 4) | a13
    ensures ((((((((((((((((((((((((((((a0 << 4) | a1) << 4) | a2) << 4) | a3) << 4) | a4) << 4) | a5) << 4) | a6) << 4) | a7) << 4) | a8) << 4) | a9) << 4) | a10) << 4) | a11) << 4) | a12) << 4) | a13) << 4) | a14) == (a0 << 56) | (a1 << 52) | (a2 << 48) | (a3 << 44) | (a4 << 40) | (a5 << 36) | (a6 << 32) | (a7 << 28) | (a8 << 24) | (a9 << 20) | (a10 << 16) | (a11 << 12) | (a12 << 8) | (a13 << 4) | a14
    ensures a0 < 0x10
    ensures ((a0 << 4) | a1) < 0x100
    ensures ((((a0 << 4) | a1) << 4) | a2) < 0x1000
    ensures ((((((a0 << 4) | a1) << 4) | a2) << 4) | a3) < 0x10000
    ensures ((((((((a0 << 4) | a1) << 4) | a2) << 4) | a3) << 4) | a4) < 0x100000
    ensures ((((((((((a0 << 4) | a1) << 4) | a2) << 4) | a3) << 4) | a4) << 4) | a5) < 0x1000000
    ensures ((((((((((((a0 << 4) | a1) << 4) | a2) << 4) | a3) << 4) | a4) << 4) | a5) << 4) | a6) < 0x10000000
    ensures ((((((((((((((a0 << 4) | a1) << 4) | a2) << 4) | a3) << 4) | a4) << 4) | a5) << 4) | a6) << 4) | a7) < 0x100000000
    ensures ((((((((((((((((a0 << 4) | a1) << 4) | a2) << 4) | a3) << 4) | a4) << 4) | a5) << 4) | a6) << 4) | a7) << 4) | a8) < 0x1000000000
    ensures ((((((((((((((((((a0 << 4) | a1) << 4) | a2) << 4) | a3) << 4) | a4) << 4) | a5) << 4) | a6) << 4) | a7) << 4) | a8) << 4) | a9) < 0x10000000000
    ensures ((((((((((((((((((((a0 << 4) | a1) << 4) | a2) << 4) | a3) << 4) | a4) << 4) | a5) << 4) | a6) << 4) | a7) << 4) | a8) << 4) | a9) << 4) | a10) < 0x100000000000
    ensures ((((((((((((((((((((((a0 << 4) | a1) << 4) | a2) << 4) | a3) << 4) | a4) << 4) | a5) << 4) | a6) << 4) | a7) << 4) | a8) << 4) | a9) << 4) | a10) << 4) | a11) < 0x1000000000000
    ensures ((((((((((((((((((((((((a0 << 4) | a1) << 4) | a2) << 4) | a3) << 4) | a4) << 4) | a5) << 4) | a6) << 4) | a7) << 4) | a8) << 4) | a9) << 4) | a10) << 4) | a11) << 4) | a12) < 0x10000000000000
    ensures ((((((((((((((((((((((((((a0 << 4) | a1) << 4) | a2) << 4) | a3) << 4) | a4) << 4) | a5) << 4) | a6) << 4) | a7) << 4) | a8) << 4) | a9) << 4) | a10) << 4) | a11) << 4) | a12) << 4) | a13) < 0x100000000000000
    ensures ((((((((((((((((((((((((((((a0 << 4) | a1) << 4) | a2) << 4) | a3) << 4) | a4) << 4) | a5) << 4) | a6) << 4) | a7) << 4) | a8) << 4) | a9) << 4) | a10) << 4) | a11) << 4) | a12) << 4) | a13) << 4) | a14) < 0x1000000000000000
  {
  }

  /**
   * parseUUID: refuses a text whose length is not 36; otherwise reads the two words from the
   * digit positions, never looking at positions 8, 13, 18 and 23. The outcome is the lenient
   * reading of the text.
   */
  method ParseUuid(s: seq<char>) returns (r: Option<Uuid>)
    ensures r == ParseIgnoringSeparators(s)
  {
    if |s| != UuidStringLength {
      return None;
    }
    DecodeByWords(s);
    var mostSignificantBits :- ParseMostSignificantBits(s);
    var leastSignificantBits :- ParseLeastSignificantBits(s);
    return Some(Uuid(mostSignificantBits, leastSignificantBits));
  }

  /**
   * The first half of parseUUID: starts from the digit at 0, then shifts left by four and ORs in
   * the digits at 1-7, 9-12 and 14-17, failing at the first character that is not a hexadecimal
   * digit.
   */
  method ParseMostSignificantBits(s: seq<char>) returns (r: Option<bv64>)
    requires |s| == UuidStringLength
    ensures r == if HighDigitsAreHex(s) then Some(HighWord(s)) else None
  {
    var digit :- HexValueForChar(s[0]);
    var mostSignificantBits: bv64 := digit;
    mostSignificantBits := mostSignificantBits << 4;
    digit :- HexValueForChar(s[1]);
    mostSignificantBits := mostSignificantBits | digit;
    mostSignificantBits := mostSignificantBits << 4;
    digit :- HexValueForChar(s[2]);
    mostSignificantBits := mostSignificantBits | digit;
    mostSignificantBits := mostSignificantBits << 4;
    digit :- HexValueForChar(s[3]);
    mostSignificantBits := mostSignificantBits | digit;
    mostSignificantBits := mostSignificantBits << 4;
    digit :- HexValueForChar(s[4]);
    mostSignificantBits := mostSignificantBits | digit;
    mostSignificantBits := mostSignificantBits << 4;
    digit :- HexValueForChar(s[5]);
    mostSignificantBits := mostSignificantBits | digit;
    mostSignificantBits := mostSignificantBits << 4;
    digit :- HexValueForChar(s[6]);
    mostSignificantBits := mostSignificantBits | digit;
    mostSignificantBits := mostSignificantBits << 4;
    digit :- HexValueForChar(s[7]);
    mostSignificantBits := mostSignificantBits | digit;
    mostSignificantBits := mostSignificantBits << 4;
    digit :- HexValueForChar(s[9]);
    mostSignificantBits := mostSignificantBits | digit;
    mostSignificantBits := mostSignificantBits << 4;
    digit :- HexValueForChar(s[10]);
    mostSignificantBits := mostSignificantBits | digit;
    mostSignificantBits := mostSignificantBits << 4;
    digit :- HexValueForChar(s[11]);
    mostSignificantBits := mostSignificantBits | digit;
    mostSignificantBits := mostSignificantBits << 4;
    digit :- HexValueForChar(s[12]);
    mostSignificantBits := mostSignificantBits | digit;
    mostSignificantBits := mostSignificantBits << 4;
    digit :- HexValueForChar(s[14]);
    mostSignificantBits := mostSignificantBits | digit;
    mostSignificantBits := mostSignificantBits << 4;
    digit :- HexValueForChar(s[15]);
    mostSignificantBits := mostSignificantBits | digit;
    mostSignificantBits := mostSignificantBits << 4;
    digit :- HexValueForChar(s[16]);
    mostSignificantBits := mostSignificantBits | digit;
    mostSignificantBits := mostSignificantBits << 4;
    digit :- HexValueForChar(s[17]);
    mostSignificantBits := mostSignificantBits | digit;
    ShiftOrIsPackBits(
      DigitValue(s[0]).value, DigitValue(s[1]).value, DigitValue(s[2]).value, DigitValue(s[3]).value,
      DigitValue(s[4]).value, DigitValue(s[5]).value, DigitValue(s[6]).value, DigitValue(s[7]).value,
      DigitValue(s[9]).value, DigitValue(s[10]).value, DigitValue(s[11]).value, DigitValue(s[12]).value,
      DigitValue(s[14]).value, DigitValue(s[15]).value, DigitValue(s[16]).value, DigitValue(s[17]).value);
    return Some(mostSignificantBits);
  }

  /**
   * The second half of parseUUID: the same accumulation over the digits at 19-22 and 24-35.
   */
  method ParseLeastSignificantBits(s: seq<char>) returns (r: Option<bv64>)
    requires |s| == UuidStringLength
    ensures r == if LowDigitsAreHex(s) then Some(LowWord(s)) else None
  {
    var digit :- HexValueForChar(s[19]);
    var leastSignificantBits: bv64 := digit;
    leastSignificantBits := leastSignificantBits << 4;
    digit :- HexValueForChar(s[20]);
    leastSignificantBits := leastSignificantBits | digit;
    leastSignificantBits := leastSignificantBits << 4;
    digit :- HexValueForChar(s[21]);
    leastSignificantBits := leastSignificantBits | digit;
    leastSignificantBits := leastSignificantBits << 4;
    digit :- HexValueForChar(s[22]);
    leastSignificantBits := leastSignificantBits | digit;
    leastSignificantBits := leastSignificantBits << 4;
    digit :- HexValueForChar(s[24]);
    leastSignificantBits := leastSignificantBits | digit;
    leastSignificantBits := leastSignificantBits << 4;
    digit :- HexValueForChar(s[25]);
    leastSignificantBits := leastSignificantBits | digit;
    leastSignificantBits := leastSignificantBits << 4;
    digit :- HexValueForChar(s[26]);
    leastSignificantBits := leastSignificantBits | digit;
    leastSignificantBits := leastSignificantBits << 4;
    digit :- HexValueForChar(s[27]);
    leastSignificantBits := leastSignificantBits | digit;
    leastSignificantBits := leastSignificantBits << 4;
    digit :- HexValueForChar(s[28]);
    leastSignificantBits := leastSignificantBits | digit;
    leastSignificantBits := leastSignificantBits << 4;
    digit :- HexValueForChar(s[29]);
    leastSignificantBits := leastSignificantBits | digit;
    leastSignificantBits := leastSignificantBits << 4;
    digit :- HexValueForChar(s[30]);
    leastSignificantBits := leastSignificantBits | digit;
    leastSignificantBits := leastSignificantBits << 4;
    digit :- HexValueForChar(s[31]);
    leastSignificantBits := leastSignificantBits | digit;
    leastSignificantBits := leastSignificantBits << 4;
    digit :- HexValueForChar(s[32]);
    leastSignificantBits := leastSignificantBits | digit;
    leastSignificantBits := leastSignificantBits << 4;
    digit :- HexValueForChar(s[33]);
    leastSignificantBits := leastSignificantBits | digit;
    leastSignificantBits := leastSignificantBits << 4;
    digit :- HexValueForChar(s[34]);
    leastSignificantBits := leastSignificantBits | digit;
    leastSignificantBits := leastSignificantBits << 4;
    digit :- HexValueForChar(s[35]);
    leastSignificantBits := leastSignificantBits | digit;
    ShiftOrIsPackBits(
      DigitValue(s[19]).value, DigitValue(s[20]).value, DigitValue(s[21]).value, DigitValue(s[22]).value,
      DigitValue(s[24]).value, DigitValue(s[25]).value, DigitValue(s[26]).value, DigitValue(s[27]).value,
      DigitValue(s[28]).value, DigitValue(s[29]).value, DigitValue(s[30]).value, DigitValue(s[31]).value,
      DigitValue(s[32]).value, DigitValue(s[33]).value, DigitValue(s[34]).value, DigitValue(s[35]).value);
    return Some(leastSignificantBits);
  }

  /**
   * toString(UUID): the same 36 character writes as the current revision's toString(long, long),
   * so it is that method; the text is the canonical form of the UUID.
   */
  method ToString(uuid: Uuid) returns (s: string)
    ensures s == Format(uuid)
  {
    s := FastUuid.ToString(uuid.mostSignificantBits, uuid.leastSignificantBits);
  }
}
