/**
 * PHP's `crc32()`, which the Autodiscover error block prints with `%u` as
 * its `Id`: the CRC-32 of IEEE 802.3 clause 3.2.9 (generator polynomial
 * 0x04C11DB7), computed bit-reflected with register preset to all ones and
 * the result complemented. PHP hashes the bytes of the string, so the model
 * hashes the UTF-8 encoding of the text.
 */
module Crc32 {
  import opened Strings

  /** The generator polynomial 0x04C11DB7 with its bits reversed. */
  const POLYNOMIAL: bv32 := 0xEDB8_8320

  /** One register step on one bit, least significant bit first. */
  function Shift(c: bv32): bv32 {
    if c & 1 == 1 then (c >> 1) ^ POLYNOMIAL else c >> 1
  }

  function ShiftN(c: bv32, n: nat): bv32
    decreases n
  {
    if n == 0 then c else ShiftN(Shift(c), n - 1)
  }

  function UpdateByte(c: bv32, b: bv8): bv32 {
    ShiftN(c ^ (b as bv32), 8)
  }

  /** The register after feeding `data` in order. */
  function Update(c: bv32, data: seq<bv8>): bv32
    decreases |data|
  {
    if data == [] then c else Update(UpdateByte(c, data[0]), data[1..])
  }

  function Checksum(data: seq<bv8>): bv32 {
    Update(0xFFFF_FFFF, data) ^ 0xFFFF_FFFF
  }

  /** Feeding two pieces one after the other is feeding their concatenation:
      the checksum can be computed incrementally. */
  lemma {:induction false} UpdateConcat(c: bv32, a: seq<bv8>, b: seq<bv8>)
    ensures Update(c, a + b) == Update(Update(c, a), b)
    decreases |a|
  {
    if a == [] {
      assert a + b == b;
    } else {
      assert (a + b)[0] == a[0];
      assert (a + b)[1..] == a[1..] + b;
      UpdateConcat(UpdateByte(c, a[0]), a[1..], b);
    }
  }

  /** The standard check value of this CRC: the ASCII bytes of "123456789"
      give 0xCBF43926. */
  lemma CheckValue()
    ensures Checksum([0x31, 0x32, 0x33, 0x34, 0x35, 0x36, 0x37, 0x38, 0x39]) == 0xCBF4_3926
  {
    var data: seq<bv8> := [0x31, 0x32, 0x33, 0x34, 0x35, 0x36, 0x37, 0x38, 0x39];
    assert UpdateByte(0xFFFF_FFFF, 0x31) == 0x7c23_1048;
    assert UpdateByte(0x7c23_1048, 0x32) == 0xb0ac_bb32;
    assert UpdateByte(0xb0ac_bb32, 0x33) == 0x77b7_9c2d;
    assert UpdateByte(0x77b7_9c2d, 0x34) == 0x641c_1f5c;
    assert UpdateByte(0x641c_1f5c, 0x35) == 0x340a_c5e3;
    assert UpdateByte(0x340a_c5e3, 0x36) == 0xf68d_2c9e;
    assert UpdateByte(0xf68d_2c9e, 0x37) == 0xaffc_9660;
    assert UpdateByte(0xaffc_9660, 0x38) == 0x651f_2550;
    assert UpdateByte(0x651f_2550, 0x39) == 0x340b_c6d9;
    assert Update(0xFFFF_FFFF, data) == 0x340b_c6d9;
  }

  // ---------------------------------------------------------------------
  // UTF-8, the bytes PHP holds for the configured text.

  function Utf8Char(c: char): (bytes: seq<bv8>)
    ensures 1 <= |bytes| <= 4
    ensures c as int < 0x80 ==> bytes == [c as int as bv8]
  {
    var n := c as int;
    if n < 0x80 then [n as bv8]
    else if n < 0x800 then [(0xC0 + n / 0x40) as bv8, (0x80 + n % 0x40) as bv8]
    else if n < 0x1_0000 then
      [(0xE0 + n / 0x1000) as bv8, (0x80 + n / 0x40 % 0x40) as bv8, (0x80 + n % 0x40) as bv8]
    else
      [(0xF0 + n / 0x4_0000) as bv8, (0x80 + n / 0x1000 % 0x40) as bv8,
       (0x80 + n / 0x40 % 0x40) as bv8, (0x80 + n % 0x40) as bv8]
  }

  function Utf8(s: string): (bytes: seq<bv8>)
    ensures |s| <= |bytes| <= 4 * |s|
  {
    if s == [] then [] else Utf8Char(s[0]) + Utf8(s[1..])
  }

  predicate IsAscii(s: string) {
    forall i :: 0 <= i < |s| ==> s[i] as int < 0x80
  }

  /** One byte per character: the code of each. */
  function AsciiBytes(s: string): (bytes: seq<bv8>)
    requires IsAscii(s)
    ensures |bytes| == |s|
  {
    if s == [] then [] else [s[0] as int as bv8] + AsciiBytes(s[1..])
  }

  /** ASCII text is its own encoding, one byte per character. */
  lemma {:induction false} Utf8Ascii(s: string)
    requires IsAscii(s)
    ensures Utf8(s) == AsciiBytes(s)
  {
    if s != [] {
      Utf8Ascii(s[1..]);
    }
  }

  /** The `Id` attribute: `printf('%u', crc32($text))`, the checksum read as
      an unsigned 32-bit number in decimal. */
  function ErrorId(text: string): (id: string)
    ensures |id| >= 1 && AllDigits(id)
    ensures |id| > 1 ==> id[0] != '0'
    ensures DigitsValue(id) < 0x1_0000_0000
    ensures DigitsValue(id) == Checksum(Utf8(text)) as nat
  {
    var n := Checksum(Utf8(text)) as nat;
    DigitsValueOfDecimal(n);
    NatToDecimal(n)
  }
}
