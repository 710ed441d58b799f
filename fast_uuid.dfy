/**
 * The current revision of the codec (class FastUUID): a strict parser that looks every digit up in
 * a 128-entry table, the fixed-offset lower-case formatter, and version-4 UUIDs built from 16
 * random bytes.
 */
module FastUuid {
  import opened Wrappers
  import opened UuidText
  import opened HexValueTable
  import opened UuidBytes

  /**
   * parseUUID: refuses a text of the wrong length or without hyphens at 8, 13, 18 and 23, then
   * reads the most significant and the least significant word. The outcome is the strict reading
   * of the text.
   */
  method ParseUuid(s: seq<char>) returns (r: Option<Uuid>)
    ensures r == Parse(s)
  {
    if |s| != UuidStringLength || s[8] != '-' || s[13] != '-' || s[18] != '-' || s[23] != '-' {
      return None;
    }
    DecodeByWords(s);
    var mostSignificantBits :- ParseMostSignificantBits(s);
    var leastSignificantBits :- ParseLeastSignificantBits(s);
    return Some(Uuid(mostSignificantBits, leastSignificantBits));
  }

  /**
   * The first half of parseUUID: ORs the values of the digits at 0-7, 9-12 and 14-17 into place,
   * most significant digit first, failing at the first character that is not a hexadecimal digit.
   */
  method ParseMostSignificantBits(s: seq<char>) returns (r: Option<bv64>)
    requires |s| == UuidStringLength
    ensures r == if HighDigitsAreHex(s) then Some(HighWord(s)) else None
  {
    var digit :- GetHexValueForChar(s[0]);
    var mostSignificantBits: bv64 := (digit as bv64) << 60;
    digit :- GetHexValueForChar(s[1]);
    mostSignificantBits := mostSignificantBits | ((digit as bv64) << 56);
    digit :- GetHexValueForChar(s[2]);
    mostSignificantBits := mostSignificantBits | ((digit as bv64) << 52);
    digit :- GetHexValueForChar(s[3]);
    mostSignificantBits := mostSignificantBits | ((digit as bv64) << 48);
    digit :- GetHexValueForChar(s[4]);
    mostSignificantBits := mostSignificantBits | ((digit as bv64) << 44);
    digit :- GetHexValueForChar(s[5]);
    mostSignificantBits := mostSignificantBits | ((digit as bv64) << 40);
    digit :- GetHexValueForChar(s[6]);
    mostSignificantBits := mostSignificantBits | ((digit as bv64) << 36);
    digit :- GetHexValueForChar(s[7]);
    mostSignificantBits := mostSignificantBits | ((digit as bv64) << 32);
    digit :- GetHexValueForChar(s[9]);
    mostSignificantBits := mostSignificantBits | ((digit as bv64) << 28);
    digit :- GetHexValueForChar(s[10]);
    mostSignificantBits := mostSignificantBits | ((digit as bv64) << 24);
    digit :- GetHexValueForChar(s[11]);
    mostSignificantBits := mostSignificantBits | ((digit as bv64) << 20);
    digit :- GetHexValueForChar(s[12]);
    mostSignificantBits := mostSignificantBits | ((digit as bv64) << 16);
    digit :- GetHexValueForChar(s[14]);
    mostSignificantBits := mostSignificantBits | ((digit as bv64) << 12);
    digit :- GetHexValueForChar(s[15]);
    mostSignificantBits := mostSignificantBits | ((digit as bv64) << 8);
    digit :- GetHexValueForChar(s[16]);
    mostSignificantBits := mostSignificantBits | ((digit as bv64) << 4);
    digit :- GetHexValueForChar(s[17]);
    mostSignificantBits := mostSignificantBits | (digit);
    return Some(mostSignificantBits);
  }

  /**
   * The second half of parseUUID: ORs the values of the digits at 19-22 and 24-35 into place,
   * most significant digit first, failing at the first character that is not a hexadecimal digit.
   */
  method ParseLeastSignificantBits(s: seq<char>) returns (r: Option<bv64>)
    requires |s| == UuidStringLength
    ensures r == if LowDigitsAreHex(s) then Some(LowWord(s)) else None
  {
    var digit :- GetHexValueForChar(s[19]);
    var leastSignificantBits: bv64 := (digit as bv64) << 60;
    digit :- GetHexValueForChar(s[20]);
    leastSignificantBits := leastSignificantBits | ((digit as bv64) << 56);
    digit :- GetHexValueForChar(s[21]);
    leastSignificantBits := leastSignificantBits | ((digit as bv64) << 52);
    digit :- GetHexValueForChar(s[22]);
    leastSignificantBits := leastSignificantBits | ((digit as bv64) << 48);
    digit :- GetHexValueForChar(s[24]);
    leastSignificantBits := leastSignificantBits | ((digit as bv64) << 44);
    digit :- GetHexValueForChar(s[25]);
    leastSignificantBits := leastSignificantBits | ((digit as bv64) << 40);
    digit :- GetHexValueForChar(s[26]);
    leastSignificantBits := leastSignificantBits | ((digit as bv64) << 36);
    digit :- GetHexValueForChar(s[27]);
    leastSignificantBits := leastSignificantBits | ((digit as bv64) << 32);
    digit :- GetHexValueForChar(s[28]);
    leastSignificantBits := leastSignificantBits | ((digit as bv64) << 28);
    digit :- GetHexValueForChar(s[29]);
    leastSignificantBits := leastSignificantBits | ((digit as bv64) << 24);
    digit :- GetHexValueForChar(s[30]);
    leastSignificantBits := leastSignificantBits | ((digit as bv64) << 20);
    digit :- GetHexValueForChar(s[31]);
    leastSignificantBits := leastSignificantBits | ((digit as bv64) << 16);
    digit :- GetHexValueForChar(s[32]);
    leastSignificantBits := leastSignificantBits | ((digit as bv64) << 12);
    digit :- GetHexValueForChar(s[33]);
    leastSignificantBits := leastSignificantBits | ((digit as bv64) << 8);
    digit :- GetHexValueForChar(s[34]);
    leastSignificantBits := leastSignificantBits | ((digit as bv64) << 4);
    digit :- GetHexValueForChar(s[35]);
    leastSignificantBits := leastSignificantBits | (digit);
    return Some(leastSignificantBits);
  }

  /** HEX_DIGITS[n]: the lower-case digit of a nibble. */
  function HexDigit(n: Nibble): char
  {
    HexDigits[n as int]
  }

  /** The first n characters of the buffer are those of the text. */
  predicate FilledUpTo(uuidChars: array<char>, text: seq<char>, n: nat)
    reads uuidChars
  {
    n <= uuidChars.Length && n <= |text| && forall i | 0 <= i < n :: uuidChars[i] == text[i]
  }

  /** In the canonical text, the first four digits of time_low are the masked and shifted nibbles toString looks up. */
  lemma FormatTimeLowFirstHalf(mostSignificantBits: bv64, leastSignificantBits: bv64)
    ensures Format(Uuid(mostSignificantBits, leastSignificantBits))[0] == HexDigit(((mostSignificantBits & 0xf000000000000000) >> 60))
    ensures Format(Uuid(mostSignificantBits, leastSignificantBits))[1] == HexDigit(((mostSignificantBits & 0x0f00000000000000) >> 56))
    ensures Format(Uuid(mostSignificantBits, leastSignificantBits))[2] == HexDigit(((mostSignificantBits & 0x00f0000000000000) >> 52))
    ensures Format(Uuid(mostSignificantBits, leastSignificantBits))[3] == HexDigit(((mostSignificantBits & 0x000f000000000000) >> 48))
  {
  }

  /** In the canonical text, the last four digits of time_low are the masked and shifted nibbles toString looks up. */
  lemma FormatTimeLowSecondHalf(mostSignificantBits: bv64, leastSignificantBits: bv64)
    ensures Format(Uuid(mostSignificantBits, leastSignificantBits))[4] == HexDigit(((mostSignificantBits & 0x0000f00000000000) >> 44))
    ensures Format(Uuid(mostSignificantBits, leastSignificantBits))[5] == HexDigit(((mostSignificantBits & 0x00000f0000000000) >> 40))
    ensures Format(Uuid(mostSignificantBits, leastSignificantBits))[6] == HexDigit(((mostSignificantBits & 0x000000f000000000) >> 36))
    ensures Format(Uuid(mostSignificantBits, leastSignificantBits))[7] == HexDigit(((mostSignificantBits & 0x0000000f00000000) >> 32))
  {
  }

  /** In the canonical text, the hyphen before time_mid and its four digits are the masked and shifted nibbles toString looks up. */
  lemma FormatTimeMid(mostSignificantBits: bv64, leastSignificantBits: bv64)
    ensures Format(Uuid(mostSignificantBits, leastSignificantBits))[8] == '-'
    ensures Format(Uuid(mostSignificantBits, leastSignificantBits))[9] == HexDigit(((mostSignificantBits & 0x00000000f0000000) >> 28))
    ensures Format(Uuid(mostSignificantBits, leastSignificantBits))[10] == HexDigit(((mostSignificantBits & 0x000000000f000000) >> 24))
    ensures Format(Uuid(mostSignificantBits, leastSignificantBits))[11] == HexDigit(((mostSignificantBits & 0x0000000000f00000) >> 20))
    ensures Format(Uuid(mostSignificantBits, leastSignificantBits))[12] == HexDigit(((mostSignificantBits & 0x00000000000f0000) >> 16))
  {
  }

  /** In the canonical text, the hyphen before time_hi_and_version and its four digits are the masked and shifted nibbles toString looks up. */
  lemma FormatTimeHighAndVersion(mostSignificantBits: bv64, leastSignificantBits: bv64)
    ensures Format(Uuid(mostSignificantBits, leastSignificantBits))[13] == '-'
    ensures Format(Uuid(mostSignificantBits, leastSignificantBits))[14] == HexDigit(((mostSignificantBits & 0x000000000000f000) >> 12))
    ensures Format(Uuid(mostSignificantBits, leastSignificantBits))[15] == HexDigit(((mostSignificantBits & 0x0000000000000f00) >> 8))
    ensures Format(Uuid(mostSignificantBits, leastSignificantBits))[16] == HexDigit(((mostSignificantBits & 0x00000000000000f0) >> 4))
    ensures Format(Uuid(mostSignificantBits, leastSignificantBits))[17] == HexDigit((mostSignificantBits & 0x000000000000000f))
  {
  }

  /** In the canonical text, the hyphen before the clock sequence and its four digits are the masked and shifted nibbles toString looks up. */
  lemma FormatClockSequence(mostSignificantBits: bv64, leastSignificantBits: bv64)
    ensures Format(Uuid(mostSignificantBits, leastSignificantBits))[18] == '-'
    ensures Format(Uuid(mostSignificantBits, leastSignificantBits))[19] == HexDigit(((leastSignificantBits & 0xf000000000000000) >> 60))
    ensures Format(Uuid(mostSignificantBits, leastSignificantBits))[20] == HexDigit(((leastSignificantBits & 0x0f00000000000000) >> 56))
    ensures Format(Uuid(mostSignificantBits, leastSignificantBits))[21] == HexDigit(((leastSignificantBits & 0x00f0000000000000) >> 52))
    ensures Format(Uuid(mostSignificantBits, leastSignificantBits))[22] == HexDigit(((leastSignificantBits & 0x000f000000000000) >> 48))
  {
  }

  /** In the canonical text, the hyphen before the node and its first four digits are the masked and shifted nibbles toString looks up. */
  lemma FormatNodeFirstThird(mostSignificantBits: bv64, leastSignificantBits: bv64)
    ensures Format(Uuid(mostSignificantBits, leastSignificantBits))[23] == '-'
    ensures Format(Uuid(mostSignificantBits, leastSignificantBits))[24] == HexDigit(((leastSignificantBits & 0x0000f00000000000) >> 44))
    ensures Format(Uuid(mostSignificantBits, leastSignificantBits))[25] == HexDigit(((leastSignificantBits & 0x00000f0000000000) >> 40))
    ensures Format(Uuid(mostSignificantBits, leastSignificantBits))[26] == HexDigit(((leastSignificantBits & 0x000000f000000000) >> 36))
    ensures Format(Uuid(mostSignificantBits, leastSignificantBits))[27] == HexDigit(((leastSignificantBits & 0x0000000f00000000) >> 32))
  {
  }

  /** In the canonical text, the middle four digits of the node are the masked and shifted nibbles toString looks up. */
  lemma FormatNodeSecondThird(mostSignificantBits: bv64, leastSignificantBits: bv64)
    ensures Format(Uuid(mostSignificantBits, leastSignificantBits))[28] == HexDigit(((leastSignificantBits & 0x00000000f0000000) >> 28))
    ensures Format(Uuid(mostSignificantBits, leastSignificantBits))[29] == HexDigit(((leastSignificantBits & 0x000000000f000000) >> 24))
    ensures Format(Uuid(mostSignificantBits, leastSignificantBits))[30] == HexDigit(((leastSignificantBits & 0x0000000000f00000) >> 20))
    ensures Format(Uuid(mostSignificantBits, leastSignificantBits))[31] == HexDigit(((leastSignificantBits & 0x00000000000f0000) >> 16))
  {
  }

  /** In the canonical text, the last four digits of the node are the masked and shifted nibbles toString looks up. */
  lemma FormatNodeLastThird(mostSignificantBits: bv64, leastSignificantBits: bv64)
    ensures Format(Uuid(mostSignificantBits, leastSignificantBits))[32] == HexDigit(((leastSignificantBits & 0x000000000000f000) >> 12))
    ensures Format(Uuid(mostSignificantBits, leastSignificantBits))[33] == HexDigit(((leastSignificantBits & 0x0000000000000f00) >> 8))
    ensures Format(Uuid(mostSignificantBits, leastSignificantBits))[34] == HexDigit(((leastSignificantBits & 0x00000000000000f0) >> 4))
    ensures Format(Uuid(mostSignificantBits, leastSignificantBits))[35] == HexDigit((leastSignificantBits & 0x000000000000000f))
  {
  }

  /** Writes the first four digits of time_low (characters 0-3) into place. */
  method WriteTimeLowFirstHalf(uuidChars: array<char>, mostSignificantBits: bv64, ghost text: seq<char>)
    requires uuidChars.Length == |text| == UuidStringLength
    requires FilledUpTo(uuidChars, text, 0)
    requires text[0] == HexDigit(((mostSignificantBits & 0xf000000000000000) >> 60))
    requires text[1] == HexDigit(((mostSignificantBits & 0x0f00000000000000) >> 56))
    requires text[2] == HexDigit(((mostSignificantBits & 0x00f0000000000000) >> 52))
    requires text[3] == HexDigit(((mostSignificantBits & 0x000f000000000000) >> 48))
    modifies uuidChars
    ensures FilledUpTo(uuidChars, text, 4)
  {
    uuidChars[0] := HexDigit(((mostSignificantBits & 0xf000000000000000) >> 60));
    uuidChars[1] := HexDigit(((mostSignificantBits & 0x0f00000000000000) >> 56));
    uuidChars[2] := HexDigit(((mostSignificantBits & 0x00f0000000000000) >> 52));
    uuidChars[3] := HexDigit(((mostSignificantBits & 0x000f000000000000) >> 48));
  }

  /** Writes the last four digits of time_low (characters 4-7) into place. */
  method WriteTimeLowSecondHalf(uuidChars: array<char>, mostSignificantBits: bv64, ghost text: seq<char>)
    requires uuidChars.Length == |text| == UuidStringLength
    requires FilledUpTo(uuidChars, text, 4)
    requires text[4] == HexDigit(((mostSignificantBits & 0x0000f00000000000) >> 44))
    requires text[5] == HexDigit(((mostSignificantBits & 0x00000f0000000000) >> 40))
    requires text[6] == HexDigit(((mostSignificantBits & 0x000000f000000000) >> 36))
    requires text[7] == HexDigit(((mostSignificantBits & 0x0000000f00000000) >> 32))
    modifies uuidChars
    ensures FilledUpTo(uuidChars, text, 8)
  {
    uuidChars[4] := HexDigit(((mostSignificantBits & 0x0000f00000000000) >> 44));
    uuidChars[5] := HexDigit(((mostSignificantBits & 0x00000f0000000000) >> 40));
    uuidChars[6] := HexDigit(((mostSignificantBits & 0x000000f000000000) >> 36));
    uuidChars[7] := HexDigit(((mostSignificantBits & 0x0000000f00000000) >> 32));
  }

  /** Writes the hyphen before time_mid and its four digits (characters 8-12) into place. */
  method WriteTimeMid(uuidChars: array<char>, mostSignificantBits: bv64, ghost text: seq<char>)
    requires uuidChars.Length == |text| == UuidStringLength
    requires FilledUpTo(uuidChars, text, 8)
    requires text[8] == '-'
    requires text[9] == HexDigit(((mostSignificantBits & 0x00000000f0000000) >> 28))
    requires text[10] == HexDigit(((mostSignificantBits & 0x000000000f000000) >> 24))
    requires text[11] == HexDigit(((mostSignificantBits & 0x0000000000f00000) >> 20))
    requires text[12] == HexDigit(((mostSignificantBits & 0x00000000000f0000) >> 16))
    modifies uuidChars
    ensures FilledUpTo(uuidChars, text, 13)
  {
    uuidChars[8] := '-';
    uuidChars[9] := HexDigit(((mostSignificantBits & 0x00000000f0000000) >> 28));
    uuidChars[10] := HexDigit(((mostSignificantBits & 0x000000000f000000) >> 24));
    uuidChars[11] := HexDigit(((mostSignificantBits & 0x0000000000f00000) >> 20));
    uuidChars[12] := HexDigit(((mostSignificantBits & 0x00000000000f0000) >> 16));
  }

  /** Writes the hyphen before time_hi_and_version and its four digits (characters 13-17) into place. */
  method WriteTimeHighAndVersion(uuidChars: array<char>, mostSignificantBits: bv64, ghost text: seq<char>)
    requires uuidChars.Length == |text| == UuidStringLength
    requires FilledUpTo(uuidChars, text, 13)
    requires text[13] == '-'
    requires text[14] == HexDigit(((mostSignificantBits & 0x000000000000f000) >> 12))
    requires text[15] == HexDigit(((mostSignificantBits & 0x0000000000000f00) >> 8))
    requires text[16] == HexDigit(((mostSignificantBits & 0x00000000000000f0) >> 4))
    requires text[17] == HexDigit((mostSignificantBits & 0x000000000000000f))
    modifies uuidChars
    ensures FilledUpTo(uuidChars, text, 18)
  {
    uuidChars[13] := '-';
    uuidChars[14] := HexDigit(((mostSignificantBits & 0x000000000000f000) >> 12));
    uuidChars[15] := HexDigit(((mostSignificantBits & 0x0000000000000f00) >> 8));
    uuidChars[16] := HexDigit(((mostSignificantBits & 0x00000000000000f0) >> 4));
    uuidChars[17] := HexDigit((mostSignificantBits & 0x000000000000000f));
  }

  /** Writes the hyphen before the clock sequence and its four digits (characters 18-22) into place. */
  method WriteClockSequence(uuidChars: array<char>, leastSignificantBits: bv64, ghost text: seq<char>)
    requires uuidChars.Length == |text| == UuidStringLength
    requires FilledUpTo(uuidChars, text, 18)
    requires text[18] == '-'
    requires text[19] == HexDigit(((leastSignificantBits & 0xf000000000000000) >> 60))
    requires text[20] == HexDigit(((leastSignificantBits & 0x0f00000000000000) >> 56))
    requires text[21] == HexDigit(((leastSignificantBits & 0x00f0000000000000) >> 52))
    requires text[22] == HexDigit(((leastSignificantBits & 0x000f000000000000) >> 48))
    modifies uuidChars
    ensures FilledUpTo(uuidChars, text, 23)
  {
    uuidChars[18] := '-';
    uuidChars[19] := HexDigit(((leastSignificantBits & 0xf000000000000000) >> 60));
    uuidChars[20] := HexDigit(((leastSignificantBits & 0x0f00000000000000) >> 56));
    uuidChars[21] := HexDigit(((leastSignificantBits & 0x00f0000000000000) >> 52));
    uuidChars[22] := HexDigit(((leastSignificantBits & 0x000f000000000000) >> 48));
  }

  /** Writes the hyphen before the node and its first four digits (characters 23-27) into place. */
  method WriteNodeFirstThird(uuidChars: array<char>, leastSignificantBits: bv64, ghost text: seq<char>)
    requires uuidChars.Length == |text| == UuidStringLength
    requires FilledUpTo(uuidChars, text, 23)
    requires text[23] == '-'
    requires text[24] == HexDigit(((leastSignificantBits & 0x0000f00000000000) >> 44))
    requires text[25] == HexDigit(((leastSignificantBits & 0x00000f0000000000) >> 40))
    requires text[26] == HexDigit(((leastSignificantBits & 0x000000f000000000) >> 36))
    requires text[27] == HexDigit(((leastSignificantBits & 0x0000000f00000000) >> 32))
    modifies uuidChars
    ensures FilledUpTo(uuidChars, text, 28)
  {
    uuidChars[23] := '-';
    uuidChars[24] := HexDigit(((leastSignificantBits & 0x0000f00000000000) >> 44));
    uuidChars[25] := HexDigit(((leastSignificantBits & 0x00000f0000000000) >> 40));
    uuidChars[26] := HexDigit(((leastSignificantBits & 0x000000f000000000) >> 36));
    uuidChars[27] := HexDigit(((leastSignificantBits & 0x0000000f00000000) >> 32));
  }

  /** Writes the middle four digits of the node (characters 28-31) into place. */
  method WriteNodeSecondThird(uuidChars: array<char>, leastSignificantBits: bv64, ghost text: seq<char>)
    requires uuidChars.Length == |text| == UuidStringLength
    requires FilledUpTo(uuidChars, text, 28)
    requires text[28] == HexDigit(((leastSignificantBits & 0x00000000f0000000) >> 28))
    requires text[29] == HexDigit(((leastSignificantBits & 0x000000000f000000) >> 24))
    requires text[30] == HexDigit(((leastSignificantBits & 0x0000000000f00000) >> 20))
    requires text[31] == HexDigit(((leastSignificantBits & 0x00000000000f0000) >> 16))
    modifies uuidChars
    ensures FilledUpTo(uuidChars, text, 32)
  {
    uuidChars[28] := HexDigit(((leastSignificantBits & 0x00000000f0000000) >> 28));
    uuidChars[29] := HexDigit(((leastSignificantBits & 0x000000000f000000) >> 24));
    uuidChars[30] := HexDigit(((leastSignificantBits & 0x0000000000f00000) >> 20));
    uuidChars[31] := HexDigit(((leastSignificantBits & 0x00000000000f0000) >> 16));
  }

  /** Writes the last four digits of the node (characters 32-35) into place. */
  method WriteNodeLastThird(uuidChars: array<char>, leastSignificantBits: bv64, ghost text: seq<char>)
    requires uuidChars.Length == |text| == UuidStringLength
    requires FilledUpTo(uuidChars, text, 32)
    requires text[32] == HexDigit(((leastSignificantBits & 0x000000000000f000) >> 12))
    requires text[33] == HexDigit(((leastSignificantBits & 0x0000000000000f00) >> 8))
    requires text[34] == HexDigit(((leastSignificantBits & 0x00000000000000f0) >> 4))
    requires text[35] == HexDigit((leastSignificantBits & 0x000000000000000f))
    modifies uuidChars
    ensures FilledUpTo(uuidChars, text, 36)
  {
    uuidChars[32] := HexDigit(((leastSignificantBits & 0x000000000000f000) >> 12));
    uuidChars[33] := HexDigit(((leastSignificantBits & 0x0000000000000f00) >> 8));
    uuidChars[34] := HexDigit(((leastSignificantBits & 0x00000000000000f0) >> 4));
    uuidChars[35] := HexDigit((leastSignificantBits & 0x000000000000000f));
  }

  /**
   * toString(long, long): fills a 36-character buffer with the 32 digits of the two words, lower
   * case, most significant first, and hyphens at 8, 13, 18 and 23. The text is the canonical form
   * of the UUID.
   */
  method ToString(mostSignificantBits: bv64, leastSignificantBits: bv64) returns (s: string)
    ensures s == Format(Uuid(mostSignificantBits, leastSignificantBits))
  {
    ghost var text := Format(Uuid(mostSignificantBits, leastSignificantBits));
    FormatTimeLowFirstHalf(mostSignificantBits, leastSignificantBits);
    FormatTimeLowSecondHalf(mostSignificantBits, leastSignificantBits);
    FormatTimeMid(mostSignificantBits, leastSignificantBits);
    FormatTimeHighAndVersion(mostSignificantBits, leastSignificantBits);
    FormatClockSequence(mostSignificantBits, leastSignificantBits);
    FormatNodeFirstThird(mostSignificantBits, leastSignificantBits);
    FormatNodeSecondThird(mostSignificantBits, leastSignificantBits);
    FormatNodeLastThird(mostSignificantBits, leastSignificantBits);
    var uuidChars := new char[UuidStringLength];
    WriteTimeLowFirstHalf(uuidChars, mostSignificantBits, text);
    WriteTimeLowSecondHalf(uuidChars, mostSignificantBits, text);
    WriteTimeMid(uuidChars, mostSignificantBits, text);
    WriteTimeHighAndVersion(uuidChars, mostSignificantBits, text);
    WriteClockSequence(uuidChars, leastSignificantBits, text);
    WriteNodeFirstThird(uuidChars, leastSignificantBits, text);
    WriteNodeSecondThird(uuidChars, leastSignificantBits, text);
    WriteNodeLastThird(uuidChars, leastSignificantBits, text);
    s := uuidChars[..];
  }

  /** toString(UUID): the canonical text of the UUID's two words. */
  method UuidToString(uuid: Uuid) returns (s: string)
    ensures s == Format(uuid)
  {
    s := ToString(uuid.mostSignificantBits, uuid.leastSignificantBits);
  }

  /**
   * getRandomUUIDBytes: a fresh 16-byte buffer filled from the random source (the bytes are the
   * parameter here), then the version nibble of byte 6 and the variant bits of byte 8 are set in
   * place.
   */
  method GetRandomUuidBytes(randomBytes: seq<bv8>) returns (uuidBytes: array<bv8>)
    requires |randomBytes| == 16
    ensures fresh(uuidBytes)
    ensures uuidBytes[..] == StampVersion4(randomBytes)
  {
    uuidBytes := new bv8[16](i requires 0 <= i < 16 => randomBytes[i]);
    uuidBytes[6] := uuidBytes[6] & 0x0f;
    uuidBytes[6] := uuidBytes[6] | 0x40;
    uuidBytes[8] := uuidBytes[8] & 0x3f;
    uuidBytes[8] := uuidBytes[8] | 0x80;
  }

  /**
   * randomUUID: packs the stamped bytes big-endian into the two words. The result is a version-4
   * UUID of the RFC 4122 variant whose other 122 bits are the random ones.
   */
  method RandomUuid(randomBytes: seq<bv8>) returns (uuid: Uuid)
    requires |randomBytes| == 16
    ensures uuid == UuidOfBytes(StampVersion4(randomBytes))
    ensures Version(uuid) == RandomVersion && VariantBits(uuid) == LeachSalzVariant
    ensures uuid.mostSignificantBits == (UuidOfBytes(randomBytes).mostSignificantBits & 0xffff_ffff_ffff_0fff) | 0x4000
    ensures uuid.leastSignificantBits
         == (UuidOfBytes(randomBytes).leastSignificantBits & 0x3fff_ffff_ffff_ffff) | 0x8000_0000_0000_0000
  {
    var uuidBytes := GetRandomUuidBytes(randomBytes);
    var mostSignificantBits := PackBytes(uuidBytes[0], uuidBytes[1], uuidBytes[2], uuidBytes[3],
                                         uuidBytes[4], uuidBytes[5], uuidBytes[6], uuidBytes[7]);
    var leastSignificantBits := PackBytes(uuidBytes[8], uuidBytes[9], uuidBytes[10], uuidBytes[11],
                                          uuidBytes[12], uuidBytes[13], uuidBytes[14], uuidBytes[15]);
    ghost var stamped := StampVersion4(randomBytes);
    assert mostSignificantBits == BigEndianWord(stamped[..8]);
    assert leastSignificantBits == BigEndianWord(stamped[8..]);
    StampedHighWord(randomBytes);
    StampedLowWord(randomBytes);
    uuid := Uuid(mostSignificantBits, leastSignificantBits);
  }

  /**
   * randomUUIDString: the same packing as randomUUID, formatted. The text is the canonical form of
   * the UUID randomUUID builds from the same bytes.
   */
  method RandomUuidString(randomBytes: seq<bv8>) returns (s: string)
    requires |randomBytes| == 16
    ensures s == Format(UuidOfBytes(StampVersion4(randomBytes)))
  {
    var uuidBytes := GetRandomUuidBytes(randomBytes);
    var mostSignificantBits := PackBytes(uuidBytes[0], uuidBytes[1], uuidBytes[2], uuidBytes[3],
                                         uuidBytes[4], uuidBytes[5], uuidBytes[6], uuidBytes[7]);
    var leastSignificantBits := PackBytes(uuidBytes[8], uuidBytes[9], uuidBytes[10], uuidBytes[11],
                                          uuidBytes[12], uuidBytes[13], uuidBytes[14], uuidBytes[15]);
    s := ToString(mostSignificantBits, leastSignificantBits);
  }

  /** Parsing a random UUID's text gives back a UUID of version 4 and the RFC 4122 variant. */
  lemma RandomUuidStringParsesToVersion4(randomBytes: seq<bv8>)
    requires |randomBytes| == 16
    ensures Parse(Format(UuidOfBytes(StampVersion4(randomBytes)))).Some?
    ensures Version(Parse(Format(UuidOfBytes(StampVersion4(randomBytes)))).value) == RandomVersion
    ensures VariantBits(Parse(Format(UuidOfBytes(StampVersion4(randomBytes)))).value) == LeachSalzVariant
  {
    ParseFormat(UuidOfBytes(StampVersion4(randomBytes)));
    StampedHighWord(randomBytes);
    StampedLowWord(randomBytes);
  }
}
