/**
 * The HEX_VALUES lookup table of class FastUUID: 128 entries, one per ASCII code, built by the
 * static initializer and read by getHexValueForChar.
 */
module HexValueTable {
  import opened Wrappers
  import opened UuidText

  /** Size of the HEX_VALUES table: one entry per ASCII code. */
  const HexValuesLength: nat := 128

  /** The entry HEX_VALUES holds for a character code once the static initializer has run. */
  function HexValueEntry(code: int): int {
    if code == '0' as int then 0x0
    else if code == '1' as int then 0x1
    else if code == '2' as int then 0x2
    else if code == '3' as int then 0x3
    else if code == '4' as int then 0x4
    else if code == '5' as int then 0x5
    else if code == '6' as int then 0x6
    else if code == '7' as int then 0x7
    else if code == '8' as int then 0x8
    else if code == '9' as int then 0x9
    else if code == 'a' as int then 0xa
    else if code == 'b' as int then 0xb
    else if code == 'c' as int then 0xc
    else if code == 'd' as int then 0xd
    else if code == 'e' as int then 0xe
    else if code == 'f' as int then 0xf
    else if code == 'A' as int then 0xa
    else if code == 'B' as int then 0xb
    else if code == 'C' as int then 0xc
    else if code == 'D' as int then 0xd
    else if code == 'E' as int then 0xe
    else if code == 'F' as int then 0xf
    else -1
  }

  /** The table entries by character range: the digit's value at each of the 22 digits, -1 elsewhere. */
  lemma HexValueEntryRanges(code: int)
    ensures '0' as int <= code <= '9' as int ==> HexValueEntry(code) == code - '0' as int
    ensures 'a' as int <= code <= 'f' as int ==> HexValueEntry(code) == code - 'a' as int + 10
    ensures 'A' as int <= code <= 'F' as int ==> HexValueEntry(code) == code - 'A' as int + 10
    ensures HexValueEntry(code) >= 0 <==>
      '0' as int <= code <= '9' as int || 'a' as int <= code <= 'f' as int || 'A' as int <= code <= 'F' as int
  {
  }

  /**
   * HEX_VALUES as the static initializer leaves it: -1 everywhere except at the 22 hexadecimal
   * digit characters, which hold their values.
   */
  function HexValues(): (table: seq<int>)
    ensures |table| == HexValuesLength
  {
    seq(HexValuesLength, code => HexValueEntry(code))
  }

  /** Stores the values of '0'..'9'. */
  method StoreDecimalDigits(table: array<int>)
    requires table.Length == HexValuesLength
    modifies table
    ensures forall code | 0 <= code < table.Length ::
      table[code] == if '0' as int <= code <= '9' as int then code - '0' as int else old(table[code])
  {
    table['0' as int] := 0x0;
    table['1' as int] := 0x1;
    table['2' as int] := 0x2;
    table['3' as int] := 0x3;
    table['4' as int] := 0x4;
    table['5' as int] := 0x5;
    table['6' as int] := 0x6;
    table['7' as int] := 0x7;
    table['8' as int] := 0x8;
    table['9' as int] := 0x9;
  }

  /** Stores the values of 'a'..'f'. */
  method StoreLowerCaseDigits(table: array<int>)
    requires table.Length == HexValuesLength
    modifies table
    ensures forall code | 0 <= code < table.Length ::
      table[code] == if 'a' as int <= code <= 'f' as int then code - 'a' as int + 10 else old(table[code])
  {
    table['a' as int] := 0xa;
    table['b' as int] := 0xb;
    table['c' as int] := 0xc;
    table['d' as int] := 0xd;
    table['e' as int] := 0xe;
    table['f' as int] := 0xf;
  }

  /** Stores the values of 'A'..'F'. */
  method StoreUpperCaseDigits(table: array<int>)
    requires table.Length == HexValuesLength
    modifies table
    ensures forall code | 0 <= code < table.Length ::
      table[code] == if 'A' as int <= code <= 'F' as int then code - 'A' as int + 10 else old(table[code])
  {
    table['A' as int] := 0xa;
    table['B' as int] := 0xb;
    table['C' as int] := 0xc;
    table['D' as int] := 0xd;
    table['E' as int] := 0xe;
    table['F' as int] := 0xf;
  }

  /** The static initializer: fill the table with -1, then store the values of the 22 digit characters. */
  method InitHexValues() returns (table: array<int>)
    ensures fresh(table) && table[..] == HexValues()
  {
    table := new int[HexValuesLength];
    for i := 0 to table.Length
      invariant forall j | 0 <= j < i :: table[j] == -1
    {
      table[i] := -1;
    }
    StoreDecimalDigits(table);
    StoreLowerCaseDigits(table);
    StoreUpperCaseDigits(table);
    forall code | 0 <= code < HexValuesLength ensures table[code] == HexValues()[code] {
      HexValueEntryRanges(code);
    }
  }

  /** The table agrees with the reference decoding on every ASCII character. */
  lemma HexValuesAgreeWithDigitValue(c: char)
    requires c as int < HexValuesLength
    ensures HexValues()[c as int] >= 0 <==> DigitValue(c).Some?
    ensures DigitValue(c).Some? ==> HexValues()[c as int] == DigitValue(c).value as int
  {
    HexValueEntryRanges(c as int);
    DigitValueRanges(c);
  }

  /** No character outside the table is a hexadecimal digit. */
  lemma NoDigitBeyondTable(c: char)
    requires c as int >= HexValuesLength
    ensures DigitValue(c).None?
  {
    DigitValueRanges(c);
  }

  /**
   * getHexValueForChar: a character beyond the table (code 128 or more) or one whose entry is
   * negative is not a digit; otherwise the entry is its value. The table agrees with the reference
   * decoding on every character.
   */
  function GetHexValueForChar(c: char): (r: Option<Nibble>)
    ensures r == DigitValue(c)
  {
    if c as int >= HexValuesLength then
      NoDigitBeyondTable(c);
      None
    else if HexValues()[c as int] < 0 then
      HexValuesAgreeWithDigitValue(c);
      None
    else
      HexValuesAgreeWithDigitValue(c);
      Some(NibbleOf(HexValues()[c as int]))
  }
}
