# fast-uuid in Dafny

fast-uuid converts between java.util.UUID values and their canonical 36-character text. The
text has 32 hexadecimal digits with hyphens at positions 8, 13, 18 and 23, as in section 3 of
RFC 4122. The library also builds version-4 UUIDs from 16 random bytes. This project models two
revisions of the codec and proves them against one shared specification.

- `FastUUID` (module `FastUuid`, plus `HexValueTable` for its lookup table) is the current codec:
  - a strict parser that checks the length and the four hyphens, then looks every digit up in a
    128-entry table;
  - a formatter that writes 36 characters at fixed offsets;
  - a random-UUID builder that sets the version and variant bits and packs the bytes big-endian.
- `FastUUIDParser` (module `FastUuidParser`) is the older revision:
  - its parser checks only the length;
  - it never looks at the four separator positions;
  - it decodes digits by character ranges and arithmetic, accumulating each word by
    shift-left-four-then-OR;
  - its formatter is the same code as the current one.

The modules are:

- `UuidText` is the specification: the UUID as two 64-bit words (`bv64`); the digit/position map
  (`DigitPosition`, `DigitIndex`); the reference digit decoding `DigitValue`; the strict reading
  `Parse`; the lenient reading `ParseIgnoringSeparators`; and the canonical text `Format`. Its
  lemmas prove:
  - the layout and the per-position nibble placement;
  - the round trip and that `Parse` is the inverse of `Format` up to letter case;
  - exactly when each reading succeeds;
  - case-insensitivity, that the lenient reading ignores the separators, and that the two
    readings agree wherever the strict one succeeds.
- `UuidBytes` covers the 16-byte network-order form (section 4.1.2 of RFC 4122), the version
  field (section 4.1.3) and the variant field (section 4.1.1). Its lemmas cover the byte/word
  round trips and what stamping the version and the variant does to each word.
- `HexValueTable` models `HEX_VALUES`:
  - the static initializer is a method over an `array<int>`, with the source's fill loop;
  - `getHexValueForChar` is proved equal to `DigitValue`.
- `FastUuid` holds imperative models of `parseUUID`, `toString` and the random-UUID methods, each
  proved against the specification functions:
  - the parser reads each word in a helper method, in the source's order of reads and ORs, and
    stops at the first non-digit;
  - the formatter fills a `char` array. Its 36 stores appear in the source's order, spread over
    eight helper methods of four or five stores each. Each helper keeps a ghost invariant: the
    buffer agrees with the canonical text up to the next position.
- `FastUuidParser` holds the older revision's operations, proved against the same specification.
- `Wrappers` holds the `Option` type. `None` is the outcome wherever the source throws
  `IllegalArgumentException`.

Java `long` words are `bv64`, so two's complement, `<<`, `>>>`, `&` and `|` are modelled bit
for bit. Java `byte`s are `bv8`, and `& 0xffL` is zero extension (`as bv64`).

## Model

| member | source | states |
|---|---|---|
| UuidText.DigitPosition | src/main/java/com/eatthepath/uuid/FastUUID.java:119-154 | digit k of the UUID is read from a text position in k..k+4 that is never a separator |
| UuidText.DigitIndex | src/main/java/com/eatthepath/uuid/FastUUID.java:253-288 | each of the 32 non-separator positions holds exactly one digit index, and DigitPosition maps it back |
| UuidText.DigitPositionInjective | src/main/java/com/eatthepath/uuid/FastUUID.java:119-154 | no two digits are read from the same position |
| UuidText.PackWordPlacement | src/main/java/com/eatthepath/uuid/FastUUID.java:119-136 | digit j of the packed word (bits 63-4j .. 60-4j) is the j-th nibble packed |
| UuidText.PackWordNibbles | src/main/java/com/eatthepath/uuid/FastUUID.java:253-270 | packing the 16 nibbles of a word gives back the word |
| UuidText.HexDigitsTable | src/main/java/com/eatthepath/uuid/FastUUID.java:58-59 | HEX_DIGITS holds '0'..'9' then 'a'..'f', entry by entry |
| UuidText.DigitValueRanges | src/main/java/com/eatthepath/uuid/FastUUID.java:68-91 | '0'..'9' decode to 0..9, 'a'..'f' and 'A'..'F' to 10..15, and nothing else decodes |
| UuidText.DigitValueIgnoresCase | src/main/java/com/eatthepath/uuid/FastUUID.java:79-91 | lower-casing a character does not change its digit value |
| UuidText.DigitsAreHexByWords | src/main/java/com/eatthepath/uuid/FastUUID.java:119-154 | all 32 digit positions hold digits iff the high word's 16 and the low word's 16 do |
| UuidText.DecodeByWords | src/main/java/com/eatthepath/uuid/FastUUID.java:119-154 | a 36-character text decodes iff both words' positions hold digits, and then to the two words read off positions 0-7, 9-12, 14-17 and 19-22, 24-35 |
| UuidText.HexDigitOf | src/main/java/com/eatthepath/uuid/FastUUID.java:58-59 | the digit written for a nibble is lower case, is not a hyphen, and decodes back to the nibble |
| UuidText.FormatLayout | src/main/java/com/eatthepath/uuid/FastUUID.java:250-291 | the canonical text has 36 characters, a hyphen exactly at 8, 13, 18 and 23, and HEX_DIGITS of nibble k at the position of digit k |
| UuidText.FormatDigitValue | src/main/java/com/eatthepath/uuid/FastUUID.java:253-288 | the character at the position of digit k decodes to nibble k of the UUID |
| UuidText.FormatIsWellFormed | src/main/java/com/eatthepath/uuid/FastUUID.java:250-291 | the canonical text passes the parser's length, hyphen and digit checks |
| UuidText.FormatWordDigits | src/main/java/com/eatthepath/uuid/FastUUID.java:253-288 | the digits read back from the canonical text are the nibbles of the two words |
| UuidText.ParseFormat | src/main/java/com/eatthepath/uuid/FastUUID.java:109-157 | round trip: both readings of the canonical text of any word pair give that pair back |
| UuidText.DecodeRevealsDigits | src/main/java/com/eatthepath/uuid/FastUUID.java:119-154 | a successful decoding holds the value of the text's digit k as nibble k |
| UuidText.DigitsDetermineDecode | src/main/java/com/eatthepath/uuid/FastUUID.java:119-154 | a text whose digit k decodes to nibble k of u decodes to u |
| UuidText.DecodePlacement | src/main/java/com/eatthepath/uuid/FastUUID.java:119-154 | decoding gives u iff every digit k of the text decodes to nibble k of u |
| UuidText.DecodeSameDigits | src/main/java/com/eatthepath/uuid/FastUUIDParser.java:17-82 | decoding depends only on the decoded values at the 32 digit positions |
| UuidText.ParseSucceedsIff | src/main/java/com/eatthepath/uuid/FastUUID.java:110-117 | the strict reading succeeds iff the length is 36, the four hyphens are in place and the other 32 characters are hexadecimal digits |
| UuidText.ParseIgnoringSeparatorsSucceedsIff | src/main/java/com/eatthepath/uuid/FastUUIDParser.java:13-15 | the lenient reading succeeds iff the length is 36 and the 32 digit positions hold hexadecimal digits |
| UuidText.ParseIgnoresCase | src/main/java/com/eatthepath/uuid/FastUUID.java:79-91 | texts equal up to letter case read the same under both readings |
| UuidText.ParseCaseVariants | src/main/java/com/eatthepath/uuid/FastUUID.java:79-91 | upper- or lower-casing a text leaves both readings unchanged |
| UuidText.SeparatorsIgnored | src/main/java/com/eatthepath/uuid/FastUUIDParser.java:17-82 | two 36-character texts that differ only at 8, 13, 18 and 23 read the same under the lenient reading |
| UuidText.StrictAgreesWithLenient | src/main/java/com/eatthepath/uuid/FastUUIDParser.java:17-82 | wherever the strict reading succeeds, the lenient one gives the same pair |
| UuidText.DigitsOfFormat | src/main/java/com/eatthepath/uuid/FastUUID.java:253-288 | a text with the hyphens in place and the digits of u lower-cases to the canonical text of u |
| UuidText.ParsedTextIsFormat | src/main/java/com/eatthepath/uuid/FastUUID.java:109-157 | a text the strict reading accepts as u lower-cases to the canonical text of u |
| UuidText.FormatCaseVariantParses | src/main/java/com/eatthepath/uuid/FastUUID.java:109-157 | any text that lower-cases to the canonical text of u reads as u |
| UuidText.ParseIsInverseOfFormat | src/main/java/com/eatthepath/uuid/FastUUID.java:109-157 | a text reads as u iff lower-casing it gives the canonical text of u |
| UuidText.DigitsOfFormatWithAnySeparators | src/main/java/com/eatthepath/uuid/FastUUIDParser.java:17-82 | any characters at the separator positions of u's canonical text: the lenient reading still gives u, and the strict reading gives u only when all four are hyphens |
| UuidText.NoHyphensExample | src/test/java/com/eatthepath/uuid/FastUUIDTest.java:47-50 | "123456789012345678901234567890123456" is refused by the strict reading and accepted by the lenient one |
| HexValueTable.HexValueEntryRanges | src/main/java/com/eatthepath/uuid/FastUUID.java:68-91 | table entries by range: a digit's entry is its value, and the entry is non-negative exactly at the 22 digit characters |
| HexValueTable.HexValues | src/main/java/com/eatthepath/uuid/FastUUID.java:61 | HEX_VALUES has 128 entries |
| HexValueTable.StoreDecimalDigits | src/main/java/com/eatthepath/uuid/FastUUID.java:68-77 | stores c - '0' at '0'..'9' and changes no other entry |
| HexValueTable.StoreLowerCaseDigits | src/main/java/com/eatthepath/uuid/FastUUID.java:79-84 | stores c - 'a' + 10 at 'a'..'f' and changes no other entry |
| HexValueTable.StoreUpperCaseDigits | src/main/java/com/eatthepath/uuid/FastUUID.java:86-91 | stores c - 'A' + 10 at 'A'..'F' and changes no other entry |
| HexValueTable.InitHexValues | src/main/java/com/eatthepath/uuid/FastUUID.java:63-92 | the static initializer (the -1 fill loop, then the 22 stores) builds exactly HexValues() in a fresh array |
| HexValueTable.HexValuesAgreeWithDigitValue | src/main/java/com/eatthepath/uuid/FastUUID.java:61-92 | for every ASCII character the entry is non-negative iff the character is a digit, and then it is the digit's value |
| HexValueTable.NoDigitBeyondTable | src/main/java/com/eatthepath/uuid/FastUUID.java:298-299 | no character with code 128 or more is a hexadecimal digit |
| HexValueTable.GetHexValueForChar | src/main/java/com/eatthepath/uuid/FastUUID.java:293-303 | the lookup (refusing codes of 128 and more and negative entries) agrees with the reference decoding on every character |
| FastUuid.ParseUuid | src/main/java/com/eatthepath/uuid/FastUUID.java:109-157 | parseUUID's outcome is the strict reading: None for the wrong length, a missing hyphen or a non-digit, otherwise the pair read off the digits |
| FastUuid.ParseMostSignificantBits | src/main/java/com/eatthepath/uuid/FastUUID.java:119-136 | the 16 shifted ORs give the high word of the text, or fail iff one of positions 0-7, 9-12, 14-17 is not a digit |
| FastUuid.ParseLeastSignificantBits | src/main/java/com/eatthepath/uuid/FastUUID.java:138-154 | the same for the low word read off positions 19-22 and 24-35 |
| FastUuid.FormatTimeLowFirstHalf | src/main/java/com/eatthepath/uuid/FastUUID.java:253-256 | canonical-text characters 0-3 are HEX_DIGITS of the source's masked and shifted nibbles |
| FastUuid.FormatTimeLowSecondHalf | src/main/java/com/eatthepath/uuid/FastUUID.java:257-260 | the same for characters 4-7 |
| FastUuid.FormatTimeMid | src/main/java/com/eatthepath/uuid/FastUUID.java:261-265 | the same for the hyphen at 8 and characters 9-12 |
| FastUuid.FormatTimeHighAndVersion | src/main/java/com/eatthepath/uuid/FastUUID.java:266-270 | the same for the hyphen at 13 and characters 14-17 |
| FastUuid.FormatClockSequence | src/main/java/com/eatthepath/uuid/FastUUID.java:271-275 | the same for the hyphen at 18 and characters 19-22 |
| FastUuid.FormatNodeFirstThird | src/main/java/com/eatthepath/uuid/FastUUID.java:276-280 | the same for the hyphen at 23 and characters 24-27 |
| FastUuid.FormatNodeSecondThird | src/main/java/com/eatthepath/uuid/FastUUID.java:281-284 | the same for characters 28-31 |
| FastUuid.FormatNodeLastThird | src/main/java/com/eatthepath/uuid/FastUUID.java:285-288 | the same for characters 32-35 |
| FastUuid.WriteTimeLowFirstHalf | src/main/java/com/eatthepath/uuid/FastUUID.java:253-256 | stores 0-3: a buffer matching the canonical text before 0 matches it before 4 |
| FastUuid.WriteTimeLowSecondHalf | src/main/java/com/eatthepath/uuid/FastUUID.java:257-260 | stores 4-7: extends the match to position 8 |
| FastUuid.WriteTimeMid | src/main/java/com/eatthepath/uuid/FastUUID.java:261-265 | stores 8-12: extends the match to position 13 |
| FastUuid.WriteTimeHighAndVersion | src/main/java/com/eatthepath/uuid/FastUUID.java:266-270 | stores 13-17: extends the match to position 18 |
| FastUuid.WriteClockSequence | src/main/java/com/eatthepath/uuid/FastUUID.java:271-275 | stores 18-22: extends the match to position 23 |
| FastUuid.WriteNodeFirstThird | src/main/java/com/eatthepath/uuid/FastUUID.java:276-280 | stores 23-27: extends the match to position 28 |
| FastUuid.WriteNodeSecondThird | src/main/java/com/eatthepath/uuid/FastUUID.java:281-284 | stores 28-31: extends the match to position 32 |
| FastUuid.WriteNodeLastThird | src/main/java/com/eatthepath/uuid/FastUUID.java:285-288 | stores 32-35: extends the match to the whole buffer |
| FastUuid.ToString | src/main/java/com/eatthepath/uuid/FastUUID.java:250-291 | toString(long, long) returns exactly the canonical text of the word pair |
| FastUuid.UuidToString | src/main/java/com/eatthepath/uuid/FastUUID.java:167-178 | toString(UUID) returns the canonical text of the UUID |
| FastUuid.GetRandomUuidBytes | src/main/java/com/eatthepath/uuid/FastUUID.java:235-248 | a fresh buffer holding the random bytes, with byte 6 set to (b6 & 0x0f) \| 0x40, byte 8 to (b8 & 0x3f) \| 0x80, and the other 14 bytes unchanged |
| FastUuid.RandomUuid | src/main/java/com/eatthepath/uuid/FastUUID.java:180-202 | the big-endian packing of the stamped bytes: version 4, variant bits 10, and every other bit that of the random bytes |
| FastUuid.RandomUuidString | src/main/java/com/eatthepath/uuid/FastUUID.java:211-233 | the canonical text of the same UUID that randomUUID packs from the same bytes |
| FastUuid.RandomUuidStringParsesToVersion4 | src/test/java/com/eatthepath/uuid/FastUUIDTest.java:99-105 | parsing a random UUID's text succeeds with version 4 and variant bits 10 |
| UuidBytes.PackBytesOfWord | src/main/java/com/eatthepath/uuid/FastUUID.java:183-190 | packing the eight bytes of a word, most significant first, gives the word |
| UuidBytes.BytesOfPackedWord | src/main/java/com/eatthepath/uuid/FastUUID.java:183-190 | each packed byte can be read back from its own eight bits |
| UuidBytes.BigEndianWordOfWordBytes | src/main/java/com/eatthepath/uuid/FastUUID.java:183-190 | reading the byte sequence of a word gives the word |
| UuidBytes.WordBytesOfBigEndianWord | src/main/java/com/eatthepath/uuid/FastUUID.java:183-190 | the bytes of the word read from eight bytes are those bytes |
| UuidBytes.UuidOfBytesOfUuid | src/main/java/com/eatthepath/uuid/FastUUID.java:183-199 | the UUID packed from a UUID's 16 network-order bytes is that UUID |
| UuidBytes.BytesOfUuidOfBytes | src/main/java/com/eatthepath/uuid/FastUUID.java:183-199 | the 16 bytes of the packed UUID are the bytes packed: packing loses nothing |
| UuidBytes.StampedByteSix | src/main/java/com/eatthepath/uuid/FastUUID.java:240-242 | setting byte 6 to (b6 & 0x0f) \| 0x40 makes the word (w & 0xffffffffffff0fff) \| 0x4000 |
| UuidBytes.StampedByteZero | src/main/java/com/eatthepath/uuid/FastUUID.java:244-245 | setting the first byte of the low word to (b8 & 0x3f) \| 0x80 makes the word (w & 0x3fffffffffffffff) \| 0x8000000000000000 |
| UuidBytes.StampedHighWord | src/main/java/com/eatthepath/uuid/FastUUID.java:240-242 | after stamping, the high word is the random one with bits 15-12 replaced by 0100, so its version is 4 |
| UuidBytes.StampedLowWord | src/main/java/com/eatthepath/uuid/FastUUID.java:244-245 | after stamping, the low word is the random one with bits 63-62 replaced by 10 |
| UuidBytes.VersionOfStampedWord | src/main/java/com/eatthepath/uuid/FastUUID.java:240-242 | a word with bits 15-12 replaced by 0100 has version field 4 |
| UuidBytes.StampingKeepsVersion4 | src/main/java/com/eatthepath/uuid/FastUUID.java:240-242 | stamping the version bits of a word whose version is already 4 leaves it unchanged |
| UuidBytes.StampingKeepsVariant | src/main/java/com/eatthepath/uuid/FastUUID.java:244-245 | stamping the variant bits of a word whose variant bits are already 10 leaves it unchanged |
| UuidBytes.StampKeepsVersion4Bytes | src/main/java/com/eatthepath/uuid/FastUUID.java:235-248 | bytes that already carry version 4 and variant 10 pack to the same UUID after stamping |
| UuidBytes.StampIsIdentityOnVersion4 | src/main/java/com/eatthepath/uuid/FastUUID.java:235-248 | every version-4, variant-10 UUID is produced by the generator, from its own bytes |
| FastUuidParser.HexValueForChar | src/main/java/com/eatthepath/uuid/FastUUIDParser.java:133-143 | c - 48, c - 87 and c - 55 on the three ranges, failure elsewhere: equal to the reference decoding on every character, and always in 0..15 |
| FastUuidParser.ShiftOrIsPackBits | src/main/java/com/eatthepath/uuid/FastUUIDParser.java:17-49 | sixteen rounds of shift-left-four-then-OR put digit j at bits 63-4j .. 60-4j, which is the current revision's shifted ORs |
| FastUuidParser.ShiftOrPrefixValue | src/main/java/com/eatthepath/uuid/FastUUIDParser.java:17-49 | after j digits (j < 16) the accumulator is the base-16 number of those j digits, digit i shifted 4(j-1-i) bits up, and so is below 16^j |
| FastUuidParser.ParseUuid | src/main/java/com/eatthepath/uuid/FastUUIDParser.java:12-85 | parseUUID's outcome is the lenient reading: None iff the length is not 36 or a digit position holds a non-digit, otherwise the pair read off the digits |
| FastUuidParser.ParseMostSignificantBits | src/main/java/com/eatthepath/uuid/FastUUIDParser.java:17-49 | the accumulation gives the high word of the text, or fails iff one of positions 0-7, 9-12, 14-17 is not a digit |
| FastUuidParser.ParseLeastSignificantBits | src/main/java/com/eatthepath/uuid/FastUUIDParser.java:51-82 | the same for the low word read off positions 19-22 and 24-35 |
| FastUuidParser.ToString | src/main/java/com/eatthepath/uuid/FastUUIDParser.java:87-131 | toString(UUID) returns the canonical text, the same as the current revision's formatter |

## Left out

- The Java-version toggle and the call to the platform `UUID.toString()`
  (FastUUID.java:41-54 and 168-172) are left out. They are platform detection and a foreign
  call, so `toString(UUID)` is modelled as the private formatter.
- `Random.nextBytes` (FastUUID.java:237) is left out as a nondeterministic foreign source. The
  16 bytes it would produce are a parameter.
- `java.util.UUID`'s own methods are replaced by the `Uuid` datatype and explicit bit fields:
  - `Version` is bits 15-12 of the high word, which is how `UUID.version()` reads it;
  - `VariantBits` is the top two bits of the low word. The JDK's `variant()` formula, which
    gives 2 for these bits, is not modelled.
- Exception types and messages are not modelled. Every `IllegalArgumentException`, including
  the one rethrown from the caught `ArrayIndexOutOfBoundsException` (FastUUID.java:294-300),
  is the single outcome `None`.
- Java `char` is a UTF-16 code unit and Dafny `char` is a Unicode scalar value, so the two text
  types differ in both directions:
  - a lone surrogate cannot be written as a Dafny `char`. `FastUUID.parseUUID` refuses such a
    text, since a surrogate is neither a hyphen nor a hexadecimal digit. `FastUUIDParser.parseUUID`
    never reads positions 8, 13, 18 and 23, so it accepts a 36-unit text with lone surrogates
    there. Those inputs are outside the model;
  - a Dafny `char` above U+FFFF is two Java `char`s, so a 36-character Dafny text holding one is
    not the image of any 36-unit Java text. `ParseIgnoringSeparators` accepts such a text when
    the character sits at a separator position, where the Java parser would refuse the 37-unit
    string for its length.
- `CharSequence`, `String` and `new String(char[])` are modelled as `seq<char>`.
- The two benchmark classes and the speed claims in the class comment are left out. They time
  the codec and hold no logic of their own.
- FastUuidParser.ToString: the 36 stores at FastUUIDParser.java:93-128 are the same code as
  FastUUID.java:253-288, so this method calls `FastUuid.ToString` instead of repeating them.
