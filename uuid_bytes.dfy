/**
 * The 16-byte form of a UUID and its bit fields. The bytes are in network order (section 4.1.2 of
 * RFC 4122): bytes 0-7 are the high word and bytes 8-15 the low word, most significant byte
 * first. The version field (section 4.1.3) is bits 15-12 of the high word; the variant field
 * (section 4.1.1) is the top bits of the low word.
 */
module UuidBytes {
  import opened UuidText

  /** The version number of randomly generated UUIDs (section 4.4 of RFC 4122). */
  const RandomVersion: bv64 := 4

  /** The two variant bits 10 of the RFC 4122 (Leach-Salz) layout. */
  const LeachSalzVariant: bv64 := 2

  /** Eight bytes packed into a word: each byte zero-extended, most significant first. */
  function PackBytes(b0: bv8, b1: bv8, b2: bv8, b3: bv8, b4: bv8, b5: bv8, b6: bv8, b7: bv8): bv64
  {
    ((b0 as bv64) << 56) | ((b1 as bv64) << 48) | ((b2 as bv64) << 40) | ((b3 as bv64) << 32) |
    ((b4 as bv64) << 24) | ((b5 as bv64) << 16) | ((b6 as bv64) << 8) | (b7 as bv64)
  }

  /** Eight bytes read as a word, most significant byte first. */
  function BigEndianWord(b: seq<bv8>): bv64
    requires |b| == 8
  {
    PackBytes(b[0], b[1], b[2], b[3], b[4], b[5], b[6], b[7])
  }

  /** The byte at bits shift+7 .. shift of a word. */
  function ByteOfWord(w: bv64, shift: bv64): bv8
    requires shift <= 56
  {
    ((w >> shift) & 0xff) as bv8
  }

  /** The eight bytes of a word, most significant first. */
  function WordBytes(w: bv64): (b: seq<bv8>)
    ensures |b| == 8
  {
    [ByteOfWord(w, 56), ByteOfWord(w, 48), ByteOfWord(w, 40), ByteOfWord(w, 32),
     ByteOfWord(w, 24), ByteOfWord(w, 16), ByteOfWord(w, 8), ByteOfWord(w, 0)]
  }

  /** The UUID whose 16 bytes in network order are b. */
  function UuidOfBytes(b: seq<bv8>): Uuid
    requires |b| == 16
  {
    Uuid(BigEndianWord(b[..8]), BigEndianWord(b[8..]))
  }

  /** The 16 bytes of a UUID in network order. */
  function BytesOfUuid(u: Uuid): (b: seq<bv8>)
    ensures |b| == 16
  {
    WordBytes(u.mostSignificantBits) + WordBytes(u.leastSignificantBits)
  }

  /** The version field: bits 15-12 of the high word. */
  function Version(u: Uuid): (v: bv64)
    ensures v < 16
  {
    (u.mostSignificantBits >> 12) & 0xf
  }

  /** The variant field as its two top bits: bits 63-62 of the low word. */
  function VariantBits(u: Uuid): (v: bv64)
    ensures v < 4
  {
    u.leastSignificantBits >> 62
  }

  /**
   * The bytes after getRandomUUIDBytes has set the version and the variant: the high nibble of
   * byte 6 becomes 4 and the top two bits of byte 8 become 10.
   */
  function StampVersion4(random: seq<bv8>): (b: seq<bv8>)
    requires |random| == 16
    ensures |b| == 16
  {
    random[6 := (random[6] & 0x0f) | 0x40][8 := (random[8] & 0x3f) | 0x80]
  }

  /** Splitting a word into bytes and packing them again gives the word. */
  lemma PackBytesOfWord(w: bv64)
    ensures PackBytes(ByteOfWord(w, 56), ByteOfWord(w, 48), ByteOfWord(w, 40), ByteOfWord(w, 32),
                      ByteOfWord(w, 24), ByteOfWord(w, 16), ByteOfWord(w, 8), ByteOfWord(w, 0)) == w
  {
  }

  /** Each byte packed into a word can be read back at its own shift. */
  lemma BytesOfPackedWord(b0: bv8, b1: bv8, b2: bv8, b3: bv8, b4: bv8, b5: bv8, b6: bv8, b7: bv8)
    ensures ByteOfWord(PackBytes(b0, b1, b2, b3, b4, b5, b6, b7), 56) == b0
    ensures ByteOfWord(PackBytes(b0, b1, b2, b3, b4, b5, b6, b7), 48) == b1
    ensures ByteOfWord(PackBytes(b0, b1, b2, b3, b4, b5, b6, b7), 40) == b2
    ensures ByteOfWord(PackBytes(b0, b1, b2, b3, b4, b5, b6, b7), 32) == b3
    ensures ByteOfWord(PackBytes(b0, b1, b2, b3, b4, b5, b6, b7), 24) == b4
    ensures ByteOfWord(PackBytes(b0, b1, b2, b3, b4, b5, b6, b7), 16) == b5
    ensures ByteOfWord(PackBytes(b0, b1, b2, b3, b4, b5, b6, b7), 8) == b6
    ensures ByteOfWord(PackBytes(b0, b1, b2, b3, b4, b5, b6, b7), 0) == b7
  {
  }

  lemma BigEndianWordOfWordBytes(w: bv64)
    ensures BigEndianWord(WordBytes(w)) == w
  {
    PackBytesOfWord(w);
  }

  lemma WordBytesOfBigEndianWord(b: seq<bv8>)
    requires |b| == 8
    ensures WordBytes(BigEndianWord(b)) == b
  {
    BytesOfPackedWord(b[0], b[1], b[2], b[3], b[4], b[5], b[6], b[7]);
  }

  /** Reading the bytes of a UUID gives the UUID back. */
  lemma UuidOfBytesOfUuid(u: Uuid)
    ensures UuidOfBytes(BytesOfUuid(u)) == u
  {
    var b := BytesOfUuid(u);
    assert b[..8] == WordBytes(u.mostSignificantBits);
    assert b[8..] == WordBytes(u.leastSignificantBits);
    BigEndianWordOfWordBytes(u.mostSignificantBits);
    BigEndianWordOfWordBytes(u.leastSignificantBits);
  }

  /** Packing loses nothing: the bytes of the packed UUID are the bytes packed. */
  lemma BytesOfUuidOfBytes(b: seq<bv8>)
    requires |b| == 16
    ensures BytesOfUuid(UuidOfBytes(b)) == b
  {
    WordBytesOfBigEndianWord(b[..8]);
    WordBytesOfBigEndianWord(b[8..]);
    assert b[..8] + b[8..] == b;
  }

  /** Setting the high nibble of byte 6 to 4 replaces bits 15-12 of the word by 0100. */
  lemma StampedByteSix(b0: bv8, b1: bv8, b2: bv8, b3: bv8, b4: bv8, b5: bv8, b6: bv8, b7: bv8)
    ensures PackBytes(b0, b1, b2, b3, b4, b5, (b6 & 0x0f) | 0x40, b7)
         == (PackBytes(b0, b1, b2, b3, b4, b5, b6, b7) & 0xffff_ffff_ffff_0fff) | 0x4000
  {
  }

  /** Setting the top two bits of byte 0 to 10 replaces bits 63-62 of the word by 10. */
  lemma StampedByteZero(b0: bv8, b1: bv8, b2: bv8, b3: bv8, b4: bv8, b5: bv8, b6: bv8, b7: bv8)
    ensures PackBytes((b0 & 0x3f) | 0x80, b1, b2, b3, b4, b5, b6, b7)
         == (PackBytes(b0, b1, b2, b3, b4, b5, b6, b7) & 0x3fff_ffff_ffff_ffff) | 0x8000_0000_0000_0000
  {
  }

  /**
   * Stamping the version replaces the four version bits of the high word by 0100 and keeps every
   * other bit, so the version field reads 4.
   */
  lemma StampedHighWord(random: seq<bv8>)
    requires |random| == 16
    ensures UuidOfBytes(StampVersion4(random)).mostSignificantBits
         == (UuidOfBytes(random).mostSignificantBits & 0xffff_ffff_ffff_0fff) | 0x4000
    ensures Version(UuidOfBytes(StampVersion4(random))) == RandomVersion
  {
    var high := StampVersion4(random)[..8];
    assert BigEndianWord(high) == PackBytes(random[0], random[1], random[2], random[3], random[4], random[5],
                                            (random[6] & 0x0f) | 0x40, random[7]);
    StampedByteSix(random[0], random[1], random[2], random[3], random[4], random[5], random[6], random[7]);
    VersionOfStampedWord(UuidOfBytes(random).mostSignificantBits);
  }

  lemma VersionOfStampedWord(w: bv64)
    ensures (((w & 0xffff_ffff_ffff_0fff) | 0x4000) >> 12) & 0xf == RandomVersion
  {
  }

  /**
   * Stamping the variant replaces the two variant bits of the low word by 10 and keeps every other
   * bit.
   */
  lemma StampedLowWord(random: seq<bv8>)
    requires |random| == 16
    ensures UuidOfBytes(StampVersion4(random)).leastSignificantBits
         == (UuidOfBytes(random).leastSignificantBits & 0x3fff_ffff_ffff_ffff) | 0x8000_0000_0000_0000
    ensures VariantBits(UuidOfBytes(StampVersion4(random))) == LeachSalzVariant
  {
    var low := StampVersion4(random)[8..];
    assert BigEndianWord(low) == PackBytes((random[8] & 0x3f) | 0x80, random[9], random[10], random[11],
                                           random[12], random[13], random[14], random[15]);
    StampedByteZero(random[8], random[9], random[10], random[11], random[12], random[13], random[14], random[15]);
  }

  /** A word whose bits 15-12 are 0100 is unchanged by stamping them. */
  lemma StampingKeepsVersion4(w: bv64)
    requires (w >> 12) & 0xf == RandomVersion
    ensures (w & 0xffff_ffff_ffff_0fff) | 0x4000 == w
  {
  }

  /** A word whose bits 63-62 are 10 is unchanged by stamping them. */
  lemma StampingKeepsVariant(w: bv64)
    requires w >> 62 == LeachSalzVariant
    ensures (w & 0x3fff_ffff_ffff_ffff) | 0x8000_0000_0000_0000 == w
  {
  }

  /** Bytes that already carry version 4 and variant 10 are left as they are by stamping. */
  lemma StampKeepsVersion4Bytes(b: seq<bv8>)
    requires |b| == 16
    requires Version(UuidOfBytes(b)) == RandomVersion && VariantBits(UuidOfBytes(b)) == LeachSalzVariant
    ensures UuidOfBytes(StampVersion4(b)) == UuidOfBytes(b)
  {
    StampedHighWord(b);
    StampedLowWord(b);
    StampingKeepsVersion4(UuidOfBytes(b).mostSignificantBits);
    StampingKeepsVariant(UuidOfBytes(b).leastSignificantBits);
  }

  /**
   * Every UUID of version 4 and variant 10 can come out of the generator: stamping its own bytes
   * gives it back.
   */
  lemma StampIsIdentityOnVersion4(u: Uuid)
    requires Version(u) == RandomVersion && VariantBits(u) == LeachSalzVariant
    ensures UuidOfBytes(StampVersion4(BytesOfUuid(u))) == u
  {
    UuidOfBytesOfUuid(u);
    StampKeepsVersion4Bytes(BytesOfUuid(u));
  }
}
