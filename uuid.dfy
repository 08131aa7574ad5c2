/**
 * `uuidgen()` of mobileconfig.php: a version-4 UUID in the sense of
 * section 4.4 of RFC 4122. Sixteen random bytes are stamped in place with
 * the version (byte 6) and the variant (byte 8), written as lower-case hex
 * and cut into the 8-4-4-4-12 layout. The random source is a parameter:
 * the caller passes the buffer `random_bytes(16)` returned.
 */
module Uuid {

  /** `ord($b) & 0x0f | 0x40`: version 4 in the high nibble. */
  function VersionByte(b: bv8): bv8 {
    (b & 0x0f) | 0x40
  }

  /** `ord($b) & 0x3f | 0x80`: variant bits 10. */
  function VariantByte(b: bv8): bv8 {
    (b & 0x3f) | 0x80
  }

  /** The buffer after the two in-place writes. */
  function Stamp(b: seq<bv8>): (r: seq<bv8>)
    requires |b| == 16
    ensures |r| == 16
  {
    b[6 := VersionByte(b[6])][8 := VariantByte(b[8])]
  }

  /** The stamp sets the version nibble to 4 and the variant bits to 10,
      and keeps the other 122 bits of the random input. */
  lemma StampBits(b: seq<bv8>)
    requires |b| == 16
    ensures Stamp(b)[6] >> 4 == 4 && Stamp(b)[6] & 0x0f == b[6] & 0x0f
    ensures Stamp(b)[8] >> 6 == 2 && Stamp(b)[8] & 0x3f == b[8] & 0x3f
    ensures forall k :: 0 <= k < 16 && k != 6 && k != 8 ==> Stamp(b)[k] == b[k]
  {
  }

  /** `uuidgen()`: stamps the random buffer in place and formats it. */
  method Generate(data: array<bv8>) returns (uuid: string)
    requires data.Length == 16
    modifies data
    ensures data[..] == Stamp(old(data[..]))
    ensures uuid == Format(data[..])
    ensures IsVersion4(uuid)
  {
    data[6] := (data[6] & 0x0f) | 0x40;
    assert data[..] == old(data[..])[6 := VersionByte(old(data[6]))];
    data[8] := (data[8] & 0x3f) | 0x80;
    uuid := Format(data[..]);
    FormatShape(old(data[..]));
  }

  // ---------------------------------------------------------------------
  // bin2hex and the 8-4-4-4-12 layout.

  predicate IsLowerHex(c: char) {
    '0' <= c <= '9' || 'a' <= c <= 'f'
  }

  function HexDigit(v: nat): (c: char)
    requires v < 16
    ensures IsLowerHex(c)
  {
    "0123456789abcdef"[v]
  }

  function HexValue(c: char): (v: nat)
    requires IsLowerHex(c)
    ensures v < 16
  {
    if c <= '9' then c as int - '0' as int else c as int - 'a' as int + 10
  }

  lemma HexValueOfDigit(v: nat)
    requires v < 16
    ensures HexValue(HexDigit(v)) == v
  {
  }

  /** `bin2hex`: two lower-case hex digits per byte, high nibble first. */
  function Bin2Hex(b: seq<bv8>): (h: string)
    ensures |h| == 2 * |b|
    ensures forall i :: 0 <= i < |h| ==> IsLowerHex(h[i])
  {
    seq(2 * |b|, i requires 0 <= i < 2 * |b| => HexDigit(if i % 2 == 0 then b[i / 2] as int / 16 else b[i / 2] as int % 16))
  }

  /** `vsprintf('%s%s-%s-%s-%s-%s%s%s', str_split(bin2hex($data), 4))` */
  function Format(b: seq<bv8>): (u: string)
    requires |b| == 16
    ensures |u| == 36
  {
    Groups(Bin2Hex(b))
  }

  /** The eight four-digit chunks of the hex string, joined by the format. */
  function Groups(h: string): (u: string)
    requires |h| == 32
    ensures |u| == 36
  {
    h[0..4] + h[4..8] + "-" + h[8..12] + "-" + h[12..16] + "-" + h[16..20] + "-" + h[20..24] + h[24..28] + h[28..32]
  }

  predicate IsDash(i: int) {
    i == 8 || i == 13 || i == 18 || i == 23
  }

  /** The index in the hex string of the character at layout position `i`. */
  function HexIndex(i: int): int
    requires 0 <= i < 36 && !IsDash(i)
  {
    if i < 8 then i else if i < 13 then i - 1 else if i < 18 then i - 2 else if i < 23 then i - 3 else i - 4
  }

  lemma FormatAt(b: seq<bv8>)
    requires |b| == 16
    ensures forall i :: 0 <= i < 36 && IsDash(i) ==> Format(b)[i] == '-'
    ensures forall i :: 0 <= i < 36 && !IsDash(i) ==> Format(b)[i] == Bin2Hex(b)[HexIndex(i)]
  {
    GroupsAt(Bin2Hex(b));
  }

  /** Where each character of the hex string lands in the 8-4-4-4-12 layout. */
  lemma GroupsAt(h: string)
    requires |h| == 32
    ensures forall i :: 0 <= i < 36 && IsDash(i) ==> Groups(h)[i] == '-'
    ensures forall i :: 0 <= i < 36 && !IsDash(i) ==> Groups(h)[i] == h[HexIndex(i)]
  {
    assert Groups(h) == h[0..8] + "-" + h[8..12] + "-" + h[12..16] + "-" + h[16..20] + "-" + h[20..32];
  }

  /** The canonical text of a version-4 UUID:
      xxxxxxxx-xxxx-4xxx-[89ab]xxx-xxxxxxxxxxxx in lower-case hex. */
  predicate IsVersion4(u: string) {
    && |u| == 36
    && (forall i :: 0 <= i < 36 && IsDash(i) ==> u[i] == '-')
    && (forall i :: 0 <= i < 36 && !IsDash(i) ==> IsLowerHex(u[i]))
    && u[14] == '4'
    && u[19] in "89ab"
  }

  lemma HighNibble(v: bv8)
    ensures v as int / 16 == (v >> 4) as int
    ensures v >> 6 == 2 ==> 8 <= v as int / 16 <= 11
  {
  }

  /** Whatever the sixteen random bytes, the stamped and formatted result
      is a version-4 UUID. */
  lemma FormatShape(b: seq<bv8>)
    requires |b| == 16
    ensures IsVersion4(Format(Stamp(b)))
  {
    var s := Stamp(b);
    FormatAt(s);
    StampBits(b);
    HighNibble(s[6]);
    HighNibble(s[8]);
    assert Format(s)[14] == Bin2Hex(s)[12] == HexDigit(s[6] as int / 16);
    assert Format(s)[19] == Bin2Hex(s)[16] == HexDigit(s[8] as int / 16);
  }

  // ---------------------------------------------------------------------
  // Reading the text back.

  /** The hex digits of a UUID text, the dashes left out. */
  function Digits(u: string): string
    requires |u| == 36
  {
    u[0..8] + u[9..13] + u[14..18] + u[19..23] + u[24..36]
  }

  /** The sixteen bytes a UUID text spells. */
  function Parse(u: string): (b: seq<bv8>)
    requires IsVersion4(u)
    ensures |b| == 16
  {
    var d := Digits(u);
    assert forall i :: 0 <= i < 32 ==> IsLowerHex(d[i]) by {
      assert forall i :: 0 <= i < 32 ==> d[i] == u[if i < 8 then i else if i < 12 then i + 1 else if i < 16 then i + 2 else if i < 20 then i + 3 else i + 4];
    }
    seq(16, k requires 0 <= k < 16 => (HexValue(d[2 * k]) * 16 + HexValue(d[2 * k + 1])) as bv8)
  }

  lemma DigitsOfFormat(b: seq<bv8>)
    requires |b| == 16
    ensures Digits(Format(b)) == Bin2Hex(b)
  {
    GroupsDigits(Bin2Hex(b));
  }

  lemma GroupsDigits(h: string)
    requires |h| == 32
    ensures Digits(Groups(h)) == h
  {
    var u := Groups(h);
    GroupsAt(h);
    forall i | 0 <= i < 32
      ensures Digits(u)[i] == h[i]
    {
      var j := if i < 8 then i else if i < 12 then i + 1 else if i < 16 then i + 2 else if i < 20 then i + 3 else i + 4;
      assert !IsDash(j) && HexIndex(j) == i;
      assert Digits(u)[i] == u[j];
    }
  }

  lemma ByteOfHex(s: seq<bv8>, k: int)
    requires 0 <= k < |s|
    ensures var h := Bin2Hex(s);
      IsLowerHex(h[2 * k]) && IsLowerHex(h[2 * k + 1]) &&
      (HexValue(h[2 * k]) * 16 + HexValue(h[2 * k + 1])) as bv8 == s[k]
  {
    Bin2HexAt(s, k);
    DigitPair(s[k]);
  }

  /** The digits of byte `k` sit at `2 * k` and `2 * k + 1`. */
  lemma Bin2HexAt(s: seq<bv8>, k: int)
    requires 0 <= k < |s|
    ensures Bin2Hex(s)[2 * k] == HexDigit(s[k] as int / 16)
    ensures Bin2Hex(s)[2 * k + 1] == HexDigit(s[k] as int % 16)
  {
    assert (2 * k) % 2 == 0 && (2 * k) / 2 == k;
    assert (2 * k + 1) % 2 == 1 && (2 * k + 1) / 2 == k;
  }

  /** The two digits of a byte read back as its value. */
  lemma DigitPair(x: bv8)
    ensures (HexValue(HexDigit(x as int / 16)) * 16 + HexValue(HexDigit(x as int % 16))) as bv8 == x
  {
    HexValueOfDigit(x as int / 16);
    HexValueOfDigit(x as int % 16);
    assert (x as int / 16) * 16 + x as int % 16 == x as int;
  }

  /** The text determines the stamped bytes: reading a generated UUID gives
      back exactly the buffer it was formatted from. */
  lemma ParseGenerated(b: seq<bv8>)
    requires |b| == 16
    ensures IsVersion4(Format(Stamp(b)))
    ensures Parse(Format(Stamp(b))) == Stamp(b)
  {
    var s := Stamp(b);
    FormatShape(b);
    DigitsOfFormat(s);
    ParseDigits(Format(s), s);
  }

  /** A text whose digits are the hex of `b` reads back as `b`. */
  lemma ParseDigits(u: string, b: seq<bv8>)
    requires IsVersion4(u) && |b| == 16 && Digits(u) == Bin2Hex(b)
    ensures Parse(u) == b
  {
    forall k | 0 <= k < 16
      ensures Parse(u)[k] == b[k]
    {
      ByteOfHex(b, k);
    }
  }
}
