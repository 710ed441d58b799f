/**
 * The canonical UUID text layout of section 3 of RFC 4122, shared by both revisions of the codec:
 * 36 characters, hyphens at positions 8, 13, 18 and 23, and 32 hexadecimal digits that hold the
 * 128-bit value most significant nibble first. This module is the specification both revisions
 * are proved against.
 */
module UuidText {
  import opened Wrappers

  /** A hexadecimal digit's value: the low four bits of a 64-bit word. */
  type Nibble = b: bv64 | b < 16

  /** A UUID as java.util.UUID holds it: the most and least significant 64-bit words. */
  datatype Uuid = Uuid(mostSignificantBits: bv64, leastSignificantBits: bv64)

  const UuidStringLength: nat := 36

  predicate IsSeparatorPosition(p: int) {
    p == 8 || p == 13 || p == 18 || p == 23
  }

  /** The text position of hex digit k (0 = most significant digit of the high word). */
  function DigitPosition(k: nat): (p: nat)
    requires k < 32
    ensures p < UuidStringLength && !IsSeparatorPosition(p)
    ensures k <= p <= k + 4
  {
    if k < 8 then k
    else if k < 12 then k + 1
    else if k < 16 then k + 2
    else if k < 20 then k + 3
    else k + 4
  }

  /** The digit index held at a non-separator text position: the inverse of DigitPosition. */
  function DigitIndex(p: nat): (k: nat)
    requires p < UuidStringLength && !IsSeparatorPosition(p)
    ensures k < 32 && DigitPosition(k) == p
  {
    if p < 8 then p
    else if p < 13 then p - 1
    else if p < 18 then p - 2
    else if p < 23 then p - 3
    else p - 4
  }

  lemma DigitPositionInjective(k: nat, k': nat)
    requires k < 32 && k' < 32 && DigitPosition(k) == DigitPosition(k')
    ensures k == k'
  {
  }

  /** Digit j (0 = most significant) of a 64-bit word: bits 63-4j down to 60-4j. */
  function WordNibble(w: bv64, j: nat): Nibble
    requires j < 16
  {
    (w >> (60 - 4 * (j as bv64))) & 0xf
  }

  /** Digit k of a UUID: digits 0-15 come from the high word, 16-31 from the low word. */
  function UuidNibble(u: Uuid, k: nat): Nibble
    requires k < 32
  {
    if k < 16 then WordNibble(u.mostSignificantBits, k) else WordNibble(u.leastSignificantBits, k - 16)
  }

  /** The word whose digit j is a_j: each nibble shifted to bits 63-4j .. 60-4j. */
  function PackBits(a0: bv64, a1: bv64, a2: bv64, a3: bv64, a4: bv64, a5: bv64, a6: bv64, a7: bv64,
                    a8: bv64, a9: bv64, a10: bv64, a11: bv64, a12: bv64, a13: bv64, a14: bv64, a15: bv64): bv64
  {
    (a0 << 60) | (a1 << 56) | (a2 << 52) | (a3 << 48) | (a4 << 44) | (a5 << 40) | (a6 << 36) | (a7 << 32) |
    (a8 << 28) | (a9 << 24) | (a10 << 20) | (a11 << 16) | (a12 << 12) | (a13 << 8) | (a14 << 4) | a15
  }

  /** The word whose 16 digits, most significant first, are ns. */
  function PackWord(ns: seq<Nibble>): bv64
    requires |ns| == 16
  {
    PackBits(ns[0], ns[1], ns[2], ns[3], ns[4], ns[5], ns[6], ns[7],
             ns[8], ns[9], ns[10], ns[11], ns[12], ns[13], ns[14], ns[15])
  }

  /** The 16 digits of a word, most significant first. */
  function WordNibbles(w: bv64): (ns: seq<Nibble>)
    ensures |ns| == 16
  {
    seq<Nibble>(16, j requires 0 <= j < 16 => WordNibble(w, j))
  }

  lemma PackBitsPlacement(a0: bv64, a1: bv64, a2: bv64, a3: bv64, a4: bv64, a5: bv64, a6: bv64, a7: bv64,
                          a8: bv64, a9: bv64, a10: bv64, a11: bv64, a12: bv64, a13: bv64, a14: bv64, a15: bv64)
    requires a0 < 16 && a1 < 16 && a2 < 16 && a3 < 16 && a4 < 16 && a5 < 16 && a6 < 16 && a7 < 16
    requires a8 < 16 && a9 < 16 && a10 < 16 && a11 < 16 && a12 < 16 && a13 < 16 && a14 < 16 && a15 < 16
    ensures var w := PackBits(a0, a1, a2, a3, a4, a5, a6, a7, a8, a9, a10, a11, a12, a13, a14, a15);
      WordNibble(w, 0) == a0 && WordNibble(w, 1) == a1 && WordNibble(w, 2) == a2 && WordNibble(w, 3) == a3 &&
      WordNibble(w, 4) == a4 && WordNibble(w, 5) == a5 && WordNibble(w, 6) == a6 && WordNibble(w, 7) == a7 &&
      WordNibble(w, 8) == a8 && WordNibble(w, 9) == a9 && WordNibble(w, 10) == a10 && WordNibble(w, 11) == a11 &&
      WordNibble(w, 12) == a12 && WordNibble(w, 13) == a13 && WordNibble(w, 14) == a14 && WordNibble(w, 15) == a15
  {
  }

  lemma PackBitsOfNibbles(w: bv64)
    ensures PackBits(WordNibble(w, 0), WordNibble(w, 1), WordNibble(w, 2), WordNibble(w, 3),
                     WordNibble(w, 4), WordNibble(w, 5), WordNibble(w, 6), WordNibble(w, 7),
                     WordNibble(w, 8), WordNibble(w, 9), WordNibble(w, 10), WordNibble(w, 11),
                     WordNibble(w, 12), WordNibble(w, 13), WordNibble(w, 14), WordNibble(w, 15)) == w
  {
  }

  /** Digit j of the packed word is ns[j]: digit j sits at bits 63-4j .. 60-4j. */
  lemma PackWordPlacement(ns: seq<Nibble>)
    requires |ns| == 16
    ensures WordNibbles(PackWord(ns)) == ns
  {
    PackBitsPlacement(ns[0], ns[1], ns[2], ns[3], ns[4], ns[5], ns[6], ns[7],
                      ns[8], ns[9], ns[10], ns[11], ns[12], ns[13], ns[14], ns[15]);
  }

  /** Packing the digits of a word gives the word back. */
  lemma PackWordNibbles(w: bv64)
    ensures PackWord(WordNibbles(w)) == w
  {
    PackBitsOfNibbles(w);
  }

  /** HEX_DIGITS: the character written for each nibble value (lower case). */
  const HexDigits: seq<char> := "0123456789abcdef"

  /** HEX_DIGITS entry by entry: '0'..'9' then 'a'..'f'. */
  lemma HexDigitsTable(i: int)
    requires 0 <= i < 16
    ensures i < 10 ==> HexDigits[i] as int == '0' as int + i
    ensures 10 <= i ==> HexDigits[i] as int == 'a' as int + i - 10
  {
    if i < 8 {
      if i < 4 {
        if i < 2 { assert i == 0 || i == 1; } else { assert i == 2 || i == 3; }
      } else {
        if i < 6 { assert i == 4 || i == 5; } else { assert i == 6 || i == 7; }
      }
    } else {
      if i < 12 {
        if i < 10 { assert i == 8 || i == 9; } else { assert i == 10 || i == 11; }
      } else {
        if i < 14 { assert i == 12 || i == 13; } else { assert i == 14 || i == 15; }
      }
    }
  }

  /** The nibble with integer value i, built without an int-to-bit-vector conversion. */
  function NibbleOf(i: int): (n: Nibble)
    requires 0 <= i < 16
    ensures n as int == i
  {
    if i == 0 then 0 else NibbleOf(i - 1) + 1
  }

  /**
   * The value of c as a hexadecimal digit: the reference decoding both revisions are checked
   * against, written as the table of the 22 digit characters (RFC 4122 section 3 accepts either
   * case on input).
   */
  function DigitValue(c: char): Option<Nibble> {
    match c
    case '0' => Some(0)
    case '1' => Some(1)
    case '2' => Some(2)
    case '3' => Some(3)
    case '4' => Some(4)
    case '5' => Some(5)
    case '6' => Some(6)
    case '7' => Some(7)
    case '8' => Some(8)
    case '9' => Some(9)
    case 'a' => Some(0xa)
    case 'b' => Some(0xb)
    case 'c' => Some(0xc)
    case 'd' => Some(0xd)
    case 'e' => Some(0xe)
    case 'f' => Some(0xf)
    case 'A' => Some(0xa)
    case 'B' => Some(0xb)
    case 'C' => Some(0xc)
    case 'D' => Some(0xd)
    case 'E' => Some(0xe)
    case 'F' => Some(0xf)
    case _ => None
  }

  /** The reference decoding, character range by character range. */
  lemma DigitValueRanges(c: char)
    ensures '0' <= c <= '9' ==> DigitValue(c).Some? && DigitValue(c).value as int == c as int - '0' as int
    ensures 'a' <= c <= 'f' ==> DigitValue(c).Some? && DigitValue(c).value as int == c as int - 'a' as int + 10
    ensures 'A' <= c <= 'F' ==> DigitValue(c).Some? && DigitValue(c).value as int == c as int - 'A' as int + 10
    ensures DigitValue(c).Some? <==> '0' <= c <= '9' || 'a' <= c <= 'f' || 'A' <= c <= 'F'
  {
  }

  /** The lower-case form of an ASCII letter; every other character is left alone. */
  function AsciiLower(c: char): char {
    if 'A' <= c <= 'Z' then (c as int + 32) as char else c
  }

  /** The upper-case form of an ASCII letter; every other character is left alone. */
  function AsciiUpper(c: char): char {
    if 'a' <= c <= 'z' then (c as int - 32) as char else c
  }

  function LowerCase(s: seq<char>): (t: seq<char>)
    ensures |t| == |s| && forall i | 0 <= i < |s| :: t[i] == AsciiLower(s[i])
  {
    seq(|s|, i requires 0 <= i < |s| => AsciiLower(s[i]))
  }

  function UpperCase(s: seq<char>): (t: seq<char>)
    ensures |t| == |s| && forall i | 0 <= i < |s| :: t[i] == AsciiUpper(s[i])
  {
    seq(|s|, i requires 0 <= i < |s| => AsciiUpper(s[i]))
  }

  /** Case does not matter to the reference decoding. */
  lemma DigitValueIgnoresCase(c: char)
    ensures DigitValue(AsciiLower(c)) == DigitValue(c)
  {
    DigitValueRanges(c);
    DigitValueRanges(AsciiLower(c));
  }

  /** The hyphens at 8, 13, 18 and 23. */
  predicate HasSeparators(s: seq<char>)
    requires |s| == UuidStringLength
  {
    s[8] == '-' && s[13] == '-' && s[18] == '-' && s[23] == '-'
  }

  /** Every one of the 32 digit positions holds a hexadecimal digit. */
  predicate DigitsAreHex(s: seq<char>)
    requires |s| == UuidStringLength
  {
    forall p | 0 <= p < UuidStringLength && !IsSeparatorPosition(p) :: DigitValue(s[p]).Some?
  }

  /** The 16 positions of the high word's digits (0-7, 9-12 and 14-17) hold hexadecimal digits. */
  predicate HighDigitsAreHex(s: seq<char>)
    requires |s| == UuidStringLength
  {
    DigitValue(s[0]).Some? && DigitValue(s[1]).Some? && DigitValue(s[2]).Some? && DigitValue(s[3]).Some? &&
    DigitValue(s[4]).Some? && DigitValue(s[5]).Some? && DigitValue(s[6]).Some? && DigitValue(s[7]).Some? &&
    DigitValue(s[9]).Some? && DigitValue(s[10]).Some? && DigitValue(s[11]).Some? && DigitValue(s[12]).Some? &&
    DigitValue(s[14]).Some? && DigitValue(s[15]).Some? && DigitValue(s[16]).Some? && DigitValue(s[17]).Some?
  }

  /** The 16 positions of the low word's digits (19-22 and 24-35) hold hexadecimal digits. */
  predicate LowDigitsAreHex(s: seq<char>)
    requires |s| == UuidStringLength
  {
    DigitValue(s[19]).Some? && DigitValue(s[20]).Some? && DigitValue(s[21]).Some? && DigitValue(s[22]).Some? &&
    DigitValue(s[24]).Some? && DigitValue(s[25]).Some? && DigitValue(s[26]).Some? && DigitValue(s[27]).Some? &&
    DigitValue(s[28]).Some? && DigitValue(s[29]).Some? && DigitValue(s[30]).Some? && DigitValue(s[31]).Some? &&
    DigitValue(s[32]).Some? && DigitValue(s[33]).Some? && DigitValue(s[34]).Some? && DigitValue(s[35]).Some?
  }

  /** The high word: the digits at positions 0-7, 9-12 and 14-17, most significant first. */
  function HighWord(s: seq<char>): bv64
    requires |s| == UuidStringLength && HighDigitsAreHex(s)
  {
    PackBits(
      DigitValue(s[0]).value, DigitValue(s[1]).value, DigitValue(s[2]).value, DigitValue(s[3]).value,
      DigitValue(s[4]).value, DigitValue(s[5]).value, DigitValue(s[6]).value, DigitValue(s[7]).value,
      DigitValue(s[9]).value, DigitValue(s[10]).value, DigitValue(s[11]).value, DigitValue(s[12]).value,
      DigitValue(s[14]).value, DigitValue(s[15]).value, DigitValue(s[16]).value, DigitValue(s[17]).value)
  }

  /** The low word: the digits at positions 19-22 and 24-35, most significant first. */
  function LowWord(s: seq<char>): bv64
    requires |s| == UuidStringLength && LowDigitsAreHex(s)
  {
    PackBits(
      DigitValue(s[19]).value, DigitValue(s[20]).value, DigitValue(s[21]).value, DigitValue(s[22]).value,
      DigitValue(s[24]).value, DigitValue(s[25]).value, DigitValue(s[26]).value, DigitValue(s[27]).value,
      DigitValue(s[28]).value, DigitValue(s[29]).value, DigitValue(s[30]).value, DigitValue(s[31]).value,
      DigitValue(s[32]).value, DigitValue(s[33]).value, DigitValue(s[34]).value, DigitValue(s[35]).value)
  }

  /** The 16 digit values of one word, read from digit index first (0 for the high word, 16 for the low). */
  function WordDigits(s: seq<char>, first: nat): (ns: seq<Nibble>)
    requires |s| == UuidStringLength && DigitsAreHex(s) && first <= 16
    ensures |ns| == 16
  {
    seq<Nibble>(16, j requires 0 <= j < 16 => DigitValue(s[DigitPosition(first + j)]).value)
  }

  /** The value held by the 32 digit positions of a 36-character text, whatever its separators are. */
  function Decode(s: seq<char>): Option<Uuid>
    requires |s| == UuidStringLength
  {
    if DigitsAreHex(s) then Some(Uuid(PackWord(WordDigits(s, 0)), PackWord(WordDigits(s, 16)))) else None
  }

  /** A digit check that passes at all 32 positions passes for the high word. */
  lemma DigitsAreHexCoversHighWord(s: seq<char>)
    requires |s| == UuidStringLength && DigitsAreHex(s)
    ensures HighDigitsAreHex(s)
  {
  }

  /** A digit check that passes at all 32 positions passes for the low word. */
  lemma DigitsAreHexCoversLowWord(s: seq<char>)
    requires |s| == UuidStringLength && DigitsAreHex(s)
    ensures LowDigitsAreHex(s)
  {
  }

  /** A high-word position holds a digit when the high word's digits all do. */
  lemma HighDigitAt(s: seq<char>, p: nat)
    requires |s| == UuidStringLength && HighDigitsAreHex(s)
    requires p < 18 && !IsSeparatorPosition(p)
    ensures DigitValue(s[p]).Some?
  {
  }

  /** A low-word position holds a digit when the low word's digits all do. */
  lemma LowDigitAt(s: seq<char>, p: nat)
    requires |s| == UuidStringLength && LowDigitsAreHex(s)
    requires 18 < p < UuidStringLength && !IsSeparatorPosition(p)
    ensures DigitValue(s[p]).Some?
  {
  }

  /** The digit check is the conjunction of the two words' digit checks. */
  lemma DigitsAreHexByWords(s: seq<char>)
    requires |s| == UuidStringLength
    ensures DigitsAreHex(s) <==> HighDigitsAreHex(s) && LowDigitsAreHex(s)
  {
    if DigitsAreHex(s) {
      DigitsAreHexCoversHighWord(s);
      DigitsAreHexCoversLowWord(s);
    }
    if HighDigitsAreHex(s) && LowDigitsAreHex(s) {
      forall p | 0 <= p < UuidStringLength && !IsSeparatorPosition(p) ensures DigitValue(s[p]).Some? {
        if p < 18 {
          HighDigitAt(s, p);
        } else {
          LowDigitAt(s, p);
        }
      }
    }
  }

  /** The digits of the high word sit at text positions 0-7, 9-12 and 14-17. */
  lemma HighWordDigitsByPosition(s: seq<char>)
    requires |s| == UuidStringLength && DigitsAreHex(s)
    ensures WordDigits(s, 0)[0] == DigitValue(s[0]).value
    ensures WordDigits(s, 0)[1] == DigitValue(s[1]).value
    ensures WordDigits(s, 0)[2] == DigitValue(s[2]).value
    ensures WordDigits(s, 0)[3] == DigitValue(s[3]).value
    ensures WordDigits(s, 0)[4] == DigitValue(s[4]).value
    ensures WordDigits(s, 0)[5] == DigitValue(s[5]).value
    ensures WordDigits(s, 0)[6] == DigitValue(s[6]).value
    ensures WordDigits(s, 0)[7] == DigitValue(s[7]).value
    ensures WordDigits(s, 0)[8] == DigitValue(s[9]).value
    ensures WordDigits(s, 0)[9] == DigitValue(s[10]).value
    ensures WordDigits(s, 0)[10] == DigitValue(s[11]).value
    ensures WordDigits(s, 0)[11] == DigitValue(s[12]).value
    ensures WordDigits(s, 0)[12] == DigitValue(s[14]).value
    ensures WordDigits(s, 0)[13] == DigitValue(s[15]).value
    ensures WordDigits(s, 0)[14] == DigitValue(s[16]).value
    ensures WordDigits(s, 0)[15] == DigitValue(s[17]).value
  {
    assert DigitPosition(0) == 0 && DigitPosition(1) == 1 && DigitPosition(2) == 2 && DigitPosition(3) == 3;
    assert DigitPosition(4) == 4 && DigitPosition(5) == 5 && DigitPosition(6) == 6 && DigitPosition(7) == 7;
    assert DigitPosition(8) == 9 && DigitPosition(9) == 10 && DigitPosition(10) == 11 && DigitPosition(11) == 12;
    assert DigitPosition(12) == 14 && DigitPosition(13) == 15 && DigitPosition(14) == 16 && DigitPosition(15) == 17;
  }

  /** The digits of the low word sit at text positions 19-22 and 24-35. */
  lemma LowWordDigitsByPosition(s: seq<char>)
    requires |s| == UuidStringLength && DigitsAreHex(s)
    ensures WordDigits(s, 16)[0] == DigitValue(s[19]).value
    ensures WordDigits(s, 16)[1] == DigitValue(s[20]).value
    ensures WordDigits(s, 16)[2] == DigitValue(s[21]).value
    ensures WordDigits(s, 16)[3] == DigitValue(s[22]).value
    ensures WordDigits(s, 16)[4] == DigitValue(s[24]).value
    ensures WordDigits(s, 16)[5] == DigitValue(s[25]).value
    ensures WordDigits(s, 16)[6] == DigitValue(s[26]).value
    ensures WordDigits(s, 16)[7] == DigitValue(s[27]).value
    ensures WordDigits(s, 16)[8] == DigitValue(s[28]).value
    ensures WordDigits(s, 16)[9] == DigitValue(s[29]).value
    ensures WordDigits(s, 16)[10] == DigitValue(s[30]).value
    ensures WordDigits(s, 16)[11] == DigitValue(s[31]).value
    ensures WordDigits(s, 16)[12] == DigitValue(s[32]).value
    ensures WordDigits(s, 16)[13] == DigitValue(s[33]).value
    ensures WordDigits(s, 16)[14] == DigitValue(s[34]).value
    ensures WordDigits(s, 16)[15] == DigitValue(s[35]).value
  {
    assert DigitPosition(16) == 19 && DigitPosition(17) == 20 && DigitPosition(18) == 21 && DigitPosition(19) == 22;
    assert DigitPosition(20) == 24 && DigitPosition(21) == 25 && DigitPosition(22) == 26 && DigitPosition(23) == 27;
    assert DigitPosition(24) == 28 && DigitPosition(25) == 29 && DigitPosition(26) == 30 && DigitPosition(27) == 31;
    assert DigitPosition(28) == 32 && DigitPosition(29) == 33 && DigitPosition(30) == 34 && DigitPosition(31) == 35;
  }

  /**
   * Decoding word by word: the text is refused unless both words' digit positions hold digits, and
   * the result then holds the high word and the low word read off the text.
   */
  lemma DecodeByWords(s: seq<char>)
    requires |s| == UuidStringLength
    ensures Decode(s) == if HighDigitsAreHex(s) && LowDigitsAreHex(s) then Some(Uuid(HighWord(s), LowWord(s))) else None
  {
    DigitsAreHexByWords(s);
    if DigitsAreHex(s) {
      HighWordDigitsByPosition(s);
      LowWordDigitsByPosition(s);
    }
  }

  /** The strict reading: right length, hyphens in place, hexadecimal digits everywhere else. */
  function Parse(s: seq<char>): Option<Uuid> {
    if |s| != UuidStringLength || !HasSeparators(s) then None else Decode(s)
  }

  /** The lenient reading: right length and hexadecimal digits; the four separator positions are skipped. */
  function ParseIgnoringSeparators(s: seq<char>): Option<Uuid> {
    if |s| != UuidStringLength then None else Decode(s)
  }

  /** The canonical text: the digits of the UUID in lower case, hyphens at the separator positions. */
  function Format(u: Uuid): (s: seq<char>)
    ensures |s| == UuidStringLength
  {
    seq(UuidStringLength, p requires 0 <= p < UuidStringLength =>
      if IsSeparatorPosition(p) then '-' else HexDigits[UuidNibble(u, DigitIndex(p)) as int])
  }

  /** What the formatter writes for a nibble: a lower-case digit that decodes back to the nibble. */
  lemma HexDigitOf(n: Nibble)
    ensures HexDigits[n as int] != '-' && AsciiLower(HexDigits[n as int]) == HexDigits[n as int]
    ensures DigitValue(HexDigits[n as int]) == Some(n)
  {
    HexDigitsTable(n as int);
    DigitValueRanges(HexDigits[n as int]);
  }

  /**
   * The canonical text is 36 characters long, has a hyphen exactly at the four separator positions,
   * and holds at the position of digit k the lower-case digit for nibble k of the UUID.
   */
  lemma FormatLayout(u: Uuid)
    ensures |Format(u)| == UuidStringLength
    ensures forall p | 0 <= p < UuidStringLength :: Format(u)[p] == '-' <==> IsSeparatorPosition(p)
    ensures forall k | 0 <= k < 32 :: Format(u)[DigitPosition(k)] == HexDigits[UuidNibble(u, k) as int]
    ensures forall p | 0 <= p < UuidStringLength && !IsSeparatorPosition(p) ::
      Format(u)[p] in HexDigits && AsciiLower(Format(u)[p]) == Format(u)[p]
  {
    forall p | 0 <= p < UuidStringLength && !IsSeparatorPosition(p)
      ensures Format(u)[p] != '-' && Format(u)[p] in HexDigits && AsciiLower(Format(u)[p]) == Format(u)[p]
    {
      HexDigitOf(UuidNibble(u, DigitIndex(p)));
    }
    forall k | 0 <= k < 32 ensures Format(u)[DigitPosition(k)] == HexDigits[UuidNibble(u, k) as int] {
      assert DigitIndex(DigitPosition(k)) == k;
    }
  }

  /** The digit at the position of digit k of the canonical text decodes to nibble k. */
  lemma FormatDigitValue(u: Uuid, k: nat)
    requires k < 32
    ensures DigitValue(Format(u)[DigitPosition(k)]) == Some(UuidNibble(u, k))
  {
    FormatLayout(u);
    HexDigitOf(UuidNibble(u, k));
  }

  /** The canonical text passes the separator and digit checks. */
  lemma FormatIsWellFormed(u: Uuid)
    ensures |Format(u)| == UuidStringLength && HasSeparators(Format(u)) && DigitsAreHex(Format(u))
  {
    FormatLayout(u);
    forall p | 0 <= p < UuidStringLength && !IsSeparatorPosition(p) ensures DigitValue(Format(u)[p]).Some? {
      FormatDigitValue(u, DigitIndex(p));
    }
  }

  /** Reading the two words back from the canonical text gives the digits of the UUID's two words. */
  lemma FormatWordDigits(u: Uuid)
    ensures HasSeparators(Format(u)) && DigitsAreHex(Format(u))
    ensures WordDigits(Format(u), 0) == WordNibbles(u.mostSignificantBits)
    ensures WordDigits(Format(u), 16) == WordNibbles(u.leastSignificantBits)
  {
    FormatIsWellFormed(u);
    forall j | 0 <= j < 16 ensures WordDigits(Format(u), 0)[j] == WordNibbles(u.mostSignificantBits)[j] {
      FormatDigitValue(u, j);
    }
    forall j | 0 <= j < 16 ensures WordDigits(Format(u), 16)[j] == WordNibbles(u.leastSignificantBits)[j] {
      FormatDigitValue(u, 16 + j);
    }
  }

  /** Round trip: parsing the canonical text of any UUID gives that UUID back. */
  lemma ParseFormat(u: Uuid)
    ensures Parse(Format(u)) == Some(u)
    ensures ParseIgnoringSeparators(Format(u)) == Some(u)
  {
    FormatWordDigits(u);
    PackWordNibbles(u.mostSignificantBits);
    PackWordNibbles(u.leastSignificantBits);
  }

  /** A character that decodes to n is, once lower-cased, the digit the formatter writes for n. */
  lemma LowerCaseOfDigit(c: char, n: Nibble)
    requires DigitValue(c) == Some(n)
    ensures AsciiLower(c) == HexDigits[n as int]
  {
    DigitValueRanges(c);
    HexDigitsTable(n as int);
  }

  /** Only the hyphen lower-cases to a hyphen. */
  lemma LowerCaseOfHyphen(c: char)
    ensures AsciiLower(c) == '-' <==> c == '-'
  {
  }

  /** Nibble k of a UUID is digit k of its high word, or digit k - 16 of its low word. */
  lemma UuidNibbleOfWords(u: Uuid, k: nat)
    requires k < 32
    ensures k < 16 ==> UuidNibble(u, k) == WordNibbles(u.mostSignificantBits)[k]
    ensures 16 <= k ==> UuidNibble(u, k) == WordNibbles(u.leastSignificantBits)[k - 16]
  {
  }

  /** A successful decoding holds digit k of the text at nibble k of its result. */
  lemma DecodeRevealsDigits(s: seq<char>, u: Uuid)
    requires |s| == UuidStringLength && Decode(s) == Some(u)
    ensures forall k | 0 <= k < 32 :: DigitValue(s[DigitPosition(k)]) == Some(UuidNibble(u, k))
  {
    PackWordPlacement(WordDigits(s, 0));
    PackWordPlacement(WordDigits(s, 16));
    forall k | 0 <= k < 32 ensures DigitValue(s[DigitPosition(k)]) == Some(UuidNibble(u, k)) {
      UuidNibbleOfWords(u, k);
      if k < 16 {
        assert WordDigits(s, 0)[k] == DigitValue(s[DigitPosition(k)]).value;
      } else {
        assert WordDigits(s, 16)[k - 16] == DigitValue(s[DigitPosition(k)]).value;
      }
    }
  }

  /** A text whose 32 digits are those of u decodes to u. */
  lemma DigitsDetermineDecode(s: seq<char>, u: Uuid)
    requires |s| == UuidStringLength
    requires forall k | 0 <= k < 32 :: DigitValue(s[DigitPosition(k)]) == Some(UuidNibble(u, k))
    ensures Decode(s) == Some(u)
  {
    forall p | 0 <= p < UuidStringLength && !IsSeparatorPosition(p) ensures DigitValue(s[p]).Some? {
      assert DigitPosition(DigitIndex(p)) == p;
    }
    forall j | 0 <= j < 16 ensures WordDigits(s, 0)[j] == WordNibbles(u.mostSignificantBits)[j] {
      UuidNibbleOfWords(u, j);
    }
    forall j | 0 <= j < 16 ensures WordDigits(s, 16)[j] == WordNibbles(u.leastSignificantBits)[j] {
      UuidNibbleOfWords(u, 16 + j);
    }
    PackWordNibbles(u.mostSignificantBits);
    PackWordNibbles(u.leastSignificantBits);
  }

  /** Decoding places digit k of the text at nibble k of the result, and the digits determine the result. */
  lemma DecodePlacement(s: seq<char>, u: Uuid)
    requires |s| == UuidStringLength
    ensures Decode(s) == Some(u) <==>
      forall k | 0 <= k < 32 :: DigitValue(s[DigitPosition(k)]) == Some(UuidNibble(u, k))
  {
    if Decode(s) == Some(u) {
      DecodeRevealsDigits(s, u);
    }
    if forall k | 0 <= k < 32 :: DigitValue(s[DigitPosition(k)]) == Some(UuidNibble(u, k)) {
      DigitsDetermineDecode(s, u);
    }
  }

  /** Decoding looks only at the decoded values of the 32 digit positions. */
  lemma DecodeSameDigits(s: seq<char>, t: seq<char>)
    requires |s| == UuidStringLength && |t| == UuidStringLength
    requires forall p | 0 <= p < UuidStringLength && !IsSeparatorPosition(p) :: DigitValue(s[p]) == DigitValue(t[p])
    ensures Decode(s) == Decode(t)
  {
    if DigitsAreHex(s) {
      forall j | 0 <= j < 16 ensures WordDigits(s, 0)[j] == WordDigits(t, 0)[j] {
        assert DigitValue(s[DigitPosition(j)]) == DigitValue(t[DigitPosition(j)]);
      }
      forall j | 0 <= j < 16 ensures WordDigits(s, 16)[j] == WordDigits(t, 16)[j] {
        assert DigitValue(s[DigitPosition(16 + j)]) == DigitValue(t[DigitPosition(16 + j)]);
      }
    }
  }

  /** A character that may stand at a digit position. */
  predicate IsHexChar(c: char) {
    '0' <= c <= '9' || 'a' <= c <= 'f' || 'A' <= c <= 'F'
  }

  /** When the strict reading succeeds: 36 characters, hyphens at 8, 13, 18 and 23, hexadecimal digits elsewhere. */
  lemma ParseSucceedsIff(s: seq<char>)
    ensures Parse(s).Some? <==> (|s| == UuidStringLength &&
      forall p | 0 <= p < |s| :: if IsSeparatorPosition(p) then s[p] == '-' else IsHexChar(s[p]))
  {
    if |s| == UuidStringLength {
      forall p | 0 <= p < |s| ensures DigitValue(s[p]).Some? <==> IsHexChar(s[p]) {
        DigitValueRanges(s[p]);
      }
    }
  }

  /** When the lenient reading succeeds: 36 characters, hexadecimal digits at the 32 digit positions. */
  lemma ParseIgnoringSeparatorsSucceedsIff(s: seq<char>)
    ensures ParseIgnoringSeparators(s).Some? <==> (|s| == UuidStringLength &&
      forall p | 0 <= p < |s| && !IsSeparatorPosition(p) :: IsHexChar(s[p]))
  {
    if |s| == UuidStringLength {
      forall p | 0 <= p < |s| ensures DigitValue(s[p]).Some? <==> IsHexChar(s[p]) {
        DigitValueRanges(s[p]);
      }
    }
  }

  /** Texts that agree up to the case of their letters read the same, under both readings. */
  lemma ParseIgnoresCase(s: seq<char>, t: seq<char>)
    requires |s| == |t| && forall i | 0 <= i < |s| :: AsciiLower(s[i]) == AsciiLower(t[i])
    ensures Parse(s) == Parse(t)
    ensures ParseIgnoringSeparators(s) == ParseIgnoringSeparators(t)
  {
    if |s| == UuidStringLength {
      forall p | 0 <= p < UuidStringLength && !IsSeparatorPosition(p) ensures DigitValue(s[p]) == DigitValue(t[p]) {
        DigitValueIgnoresCase(s[p]);
        DigitValueIgnoresCase(t[p]);
      }
      DecodeSameDigits(s, t);
      LowerCaseOfHyphen(s[8]); LowerCaseOfHyphen(t[8]);
      LowerCaseOfHyphen(s[13]); LowerCaseOfHyphen(t[13]);
      LowerCaseOfHyphen(s[18]); LowerCaseOfHyphen(t[18]);
      LowerCaseOfHyphen(s[23]); LowerCaseOfHyphen(t[23]);
    }
  }

  /** Lower-casing after either case mapping is the same as lower-casing alone. */
  lemma CaseMappingsAgree(c: char)
    ensures AsciiLower(AsciiLower(c)) == AsciiLower(c) && AsciiLower(AsciiUpper(c)) == AsciiLower(c)
  {
  }

  /** Lower-casing or upper-casing a text does not change what it reads as. */
  lemma ParseCaseVariants(s: seq<char>)
    ensures Parse(LowerCase(s)) == Parse(s) && Parse(UpperCase(s)) == Parse(s)
    ensures ParseIgnoringSeparators(LowerCase(s)) == ParseIgnoringSeparators(s)
    ensures ParseIgnoringSeparators(UpperCase(s)) == ParseIgnoringSeparators(s)
  {
    forall i | 0 <= i < |s| ensures AsciiLower(LowerCase(s)[i]) == AsciiLower(s[i]) && AsciiLower(UpperCase(s)[i]) == AsciiLower(s[i]) {
      CaseMappingsAgree(s[i]);
    }
    ParseIgnoresCase(LowerCase(s), s);
    ParseIgnoresCase(UpperCase(s), s);
  }

  /** The lenient reading never inspects the four separator positions. */
  lemma SeparatorsIgnored(s: seq<char>, t: seq<char>)
    requires |s| == UuidStringLength && |t| == UuidStringLength
    requires forall p | 0 <= p < UuidStringLength && !IsSeparatorPosition(p) :: s[p] == t[p]
    ensures ParseIgnoringSeparators(s) == ParseIgnoringSeparators(t)
  {
    DecodeSameDigits(s, t);
  }

  /** Whatever the strict reading accepts, the lenient reading accepts with the same value. */
  lemma StrictAgreesWithLenient(s: seq<char>)
    requires Parse(s).Some?
    ensures ParseIgnoringSeparators(s) == Parse(s)
  {
  }

  /** A text with the hyphens in place and the digits of u lower-cases to the canonical text of u. */
  lemma DigitsOfFormat(s: seq<char>, u: Uuid)
    requires |s| == UuidStringLength && HasSeparators(s)
    requires forall k | 0 <= k < 32 :: DigitValue(s[DigitPosition(k)]) == Some(UuidNibble(u, k))
    ensures LowerCase(s) == Format(u)
  {
    forall p | 0 <= p < UuidStringLength ensures LowerCase(s)[p] == Format(u)[p] {
      if !IsSeparatorPosition(p) {
        var k := DigitIndex(p);
        LowerCaseOfDigit(s[p], UuidNibble(u, k));
      }
    }
  }

  /** A text the strict reading accepts as u lower-cases to the canonical text of u. */
  lemma ParsedTextIsFormat(s: seq<char>, u: Uuid)
    requires Parse(s) == Some(u)
    ensures LowerCase(s) == Format(u)
  {
    DecodeRevealsDigits(s, u);
    DigitsOfFormat(s, u);
  }

  /** A text that lower-cases to the canonical text of u reads as u. */
  lemma FormatCaseVariantParses(s: seq<char>, u: Uuid)
    requires LowerCase(s) == Format(u)
    ensures Parse(s) == Some(u)
  {
    FormatLayout(u);
    forall i | 0 <= i < |s| ensures AsciiLower(s[i]) == AsciiLower(Format(u)[i]) {
      LowerCaseOfHyphen(s[i]);
    }
    ParseIgnoresCase(s, Format(u));
    ParseFormat(u);
  }

  /**
   * The strict reading is exactly the inverse of the formatter up to letter case: a text reads as u
   * if and only if lower-casing it gives the canonical text of u.
   */
  lemma ParseIsInverseOfFormat(s: seq<char>, u: Uuid)
    ensures Parse(s) == Some(u) <==> LowerCase(s) == Format(u)
  {
    if Parse(s) == Some(u) {
      ParsedTextIsFormat(s, u);
    }
    if LowerCase(s) == Format(u) {
      FormatCaseVariantParses(s, u);
    }
  }

  /**
   * Any 36-character text that carries the digits of u at the 32 digit positions reads as u under the
   * lenient reading, whatever stands at the separator positions; the strict reading refuses it unless
   * all four are hyphens.
   */
  lemma DigitsOfFormatWithAnySeparators(u: Uuid, t: seq<char>)
    requires |t| == UuidStringLength
    requires forall p | 0 <= p < UuidStringLength && !IsSeparatorPosition(p) :: t[p] == Format(u)[p]
    ensures ParseIgnoringSeparators(t) == Some(u)
    ensures Parse(t) == (if HasSeparators(t) then Some(u) else None)
  {
    SeparatorsIgnored(t, Format(u));
    ParseFormat(u);
  }

  /** Thirty-six digits and no hyphens: the strict reading refuses it, the lenient one accepts it. */
  lemma NoHyphensExample()
    ensures Parse("123456789012345678901234567890123456") == None
    ensures ParseIgnoringSeparators("123456789012345678901234567890123456").Some?
  {
    ParseIgnoringSeparatorsSucceedsIff("123456789012345678901234567890123456");
  }
}
