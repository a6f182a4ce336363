/**
 * Version 7 UUIDs as the end-to-end helper packs them (sections 4.1, 4.2 and 5.7 of RFC
 * 9562): a byte array filled at random, overwritten in place with a big-endian timestamp,
 * the version and the variant, and formatted as text.
 */
module UuidV7 {
  import opened Options
  import opened HexText

  const TIMESTAMP_BYTES := 6

  function Power256(n: nat): (p: nat)
    ensures p >= 1
  {
    if n == 0 then 1 else 256 * Power256(n - 1)
  }

  type Byte = b: int | 0 <= b < 256

  /** The big-endian value of some bytes. */
  function BigEndian(bytes: seq<Byte>): (n: nat)
    ensures n < Power256(|bytes|)
  {
    if bytes == [] then 0 else
      HeadFits(bytes[0], Power256(|bytes| - 1));
      bytes[0] * Power256(|bytes| - 1) + BigEndian(bytes[1..])
  }

  lemma HeadFits(b: Byte, p: nat)
    ensures 0 <= b * p <= 255 * p
  {
  }

  /** What the 48-bit field holds: the timestamp, without what does not fit. */
  function Field(timestamp: int): (n: nat)
    ensures 0 <= timestamp < Power256(TIMESTAMP_BYTES) ==> n == timestamp
  {
    timestamp % Power256(TIMESTAMP_BYTES)
  }

  /** `(b & 0x0f) | 0x70`: the version in the high four bits. */
  function WithVersion(b: Byte): Byte { 0x70 + b % 16 }

  /** `(b & 0x3f) | 0x80`: the variant in the high two bits. */
  function WithVariant(b: Byte): Byte { 0x80 + b % 64 }

  /** The arithmetic form of the version mask is the bit operation. */
  lemma VersionMask(b: bv8)
    ensures ((b & 0x0f) | 0x70) as int == WithVersion(b as int)
  {
    assert b & 0x0f == b % 16;
    assert (b & 0x0f) | 0x70 == 0x70 + (b & 0x0f);
  }

  /** And that of the variant mask. */
  lemma VariantMask(b: bv8)
    ensures ((b & 0x3f) | 0x80) as int == WithVariant(b as int)
  {
    assert b & 0x3f == b % 64;
    assert (b & 0x3f) | 0x80 == 0x80 + (b & 0x3f);
  }

  predicate HasLayout(bytes: seq<Byte>, timestamp: int, fill: seq<Byte>) {
    && |bytes| == |fill| == 16
    && BigEndian(bytes[..TIMESTAMP_BYTES]) == Field(timestamp)
    && bytes[6] / 16 == 7 && bytes[6] % 16 == fill[6] % 16
    && bytes[8] / 64 == 2 && bytes[8] % 64 == fill[8] % 64
    && bytes[7] == fill[7] && bytes[9..] == fill[9..]
  }

  /** Two digits a byte. */
  function HexOf(bytes: seq<Byte>): (s: string)
    ensures |s| == 2 * |bytes|
  {
    if bytes == [] then "" else
      assert Power16(2) == 256;
      Hex(bytes[0], 2) + HexOf(bytes[1..])
  }

  /** Groups of 8, 4, 4, 4 and 12 digits. */
  function Format(bytes: seq<Byte>): (s: string)
    requires |bytes| == 16
    ensures |s| == 36
  {
    var hex := HexOf(bytes);
    hex[..8] + "-" + hex[8..12] + "-" + hex[12..16] + "-" + hex[16..20] + "-" + hex[20..]
  }

  lemma ShiftByte(high: int, p: nat)
    ensures high * p == (high / 256) * (256 * p) + (high % 256) * p
  {
    assert high == high / 256 * 256 + high % 256;
    assert (high / 256 * 256) * p == (high / 256) * (256 * p);
  }

  /** What is left to store and what is stored already make up the timestamp. */
  ghost predicate Split(timestamp: int, left: int, stored: seq<Byte>) {
    timestamp == left * Power256(|stored|) + BigEndian(stored)
  }

  lemma NothingStored(timestamp: int)
    ensures Split(timestamp, timestamp, [])
  {
  }

  /** `milliseconds & 0xff` and `milliseconds >> 8`, for any sign. */
  function LowByte(n: int): Byte { n % 256 }

  function Shifted(n: int): int { n / 256 }

  lemma OneMoreByte(timestamp: int, left: int, stored: seq<Byte>)
    requires Split(timestamp, left, stored)
    ensures Split(timestamp, Shifted(left), [LowByte(left)] + stored)
  {
    assert ([LowByte(left)] + stored)[1..] == stored;
    ShiftByte(left, Power256(|stored|));
  }

  lemma SixBytesStored(timestamp: int, left: int, stored: seq<Byte>)
    requires |stored| == 6 && Split(timestamp, left, stored)
    ensures BigEndian(stored) == Field(timestamp)
  {
    Remainder(timestamp, left, BigEndian(stored));
  }

  /** The descending loop over the first six bytes. */
  method FillTimestamp(bytes: array<Byte>, timestamp: int)
    requires bytes.Length == 16
    modifies bytes
    ensures BigEndian(bytes[..6]) == Field(timestamp)
    ensures forall i | 6 <= i < 16 :: bytes[i] == old(bytes[i])
  {
    hide *;
    var milliseconds := timestamp;
    var index := 5;
    ghost var stored: seq<Byte> := [];
    NothingStored(timestamp);
    while index >= 0
      invariant -1 <= index <= 5 && |stored| == 5 - index
      invariant forall i | 6 <= i < 16 :: bytes[i] == old(bytes[i])
      invariant forall i | 0 <= i < |stored| :: stored[i] == bytes[index + 1 + i]
      invariant Split(timestamp, milliseconds, stored)
      decreases index
    {
      OneMoreByte(timestamp, milliseconds, stored);
      bytes[index] := LowByte(milliseconds);
      stored := [LowByte(milliseconds)] + stored;
      milliseconds := Shifted(milliseconds);
      index := index - 1;
    }
    assert stored == bytes[..6];
    SixBytesStored(timestamp, milliseconds, stored);
  }

  method Pack(bytes: array<Byte>, timestamp: int)
    requires bytes.Length == 16
    modifies bytes
    ensures HasLayout(bytes[..], timestamp, old(bytes[..]))
  {
    hide BigEndian, Field;
    ghost var fill := bytes[..];
    FillTimestamp(bytes, timestamp);
    ghost var stamp := bytes[..6];
    bytes[6] := WithVersion(bytes[6]);
    bytes[8] := WithVariant(bytes[8]);
    assert bytes[..6] == stamp;
  }

  lemma Remainder(timestamp: int, q: int, r: nat)
    requires r < Power256(TIMESTAMP_BYTES) && timestamp == q * Power256(TIMESTAMP_BYTES) + r
    ensures r == Field(timestamp)
  {
    assert Power256(TIMESTAMP_BYTES) == 0x1_0000_0000_0000;
  }

  /** The text of one UUID for a timestamp and sixteen random bytes. */
  method MakeUuidV7(timestamp: int, fill: seq<Byte>) returns (text: string, ghost bytes: seq<Byte>)
    requires |fill| == 16
    ensures HasLayout(bytes, timestamp, fill) && text == Format(bytes)
  {
    var buffer := new Byte[16](i requires 0 <= i < 16 => fill[i]);
    assert buffer[..] == fill;
    Pack(buffer, timestamp);
    bytes := buffer[..];
    text := Format(buffer[..]);
  }

  // ---- Reading the text ----

  lemma {:induction false} HexOfIsHex(bytes: seq<Byte>)
    ensures Power16(2 * |bytes|) == Power256(|bytes|)
    ensures HexOf(bytes) == Hex(BigEndian(bytes), 2 * |bytes|)
  {
    if bytes != [] {
      var n := |bytes| - 1;
      HexOfIsHex(bytes[1..]);
      assert Power16(2) == 256;
      PowersMultiply(2, 2 * n);
      assert 2 + 2 * n == 2 * |bytes|;
      HexConcat(bytes[0], 2, BigEndian(bytes[1..]), 2 * n);
    }
  }

  lemma {:induction false} HexOfConcat(a: seq<Byte>, b: seq<Byte>)
    ensures HexOf(a + b) == HexOf(a) + HexOf(b)
  {
    if a == [] {
      assert a + b == b;
    } else {
      assert (a + b)[1..] == a[1..] + b;
      HexOfConcat(a[1..], b);
    }
  }

  /** The text starts with the field's 48 bits, eight digits, a hyphen, and four more. */
  lemma TextStartsWithField(bytes: seq<Byte>)
    requires |bytes| == 16
    ensures var n := BigEndian(bytes[..6]);
            && n < Power16(12)
            && Format(bytes)[..8] + Format(bytes)[9..13] == Hex(n, 12)
            && Format(bytes)[8] == '-'
  {
    hide HexOf, BigEndian, Hex, Format;
    HexOfIsHex(bytes[..6]);
    HexOfConcat(bytes[..6], bytes[6..]);
    assert bytes == bytes[..6] + bytes[6..];
    var hex := HexOf(bytes);
    assert hex[..12] == HexOf(bytes[..6]);
    FirstGroups(bytes);
    assert hex[..8] + hex[8..12] == hex[..12];
  }

  lemma FirstGroups(bytes: seq<Byte>)
    requires |bytes| == 16
    ensures Format(bytes)[..8] == HexOf(bytes)[..8] && Format(bytes)[9..13] == HexOf(bytes)[8..12]
    ensures Format(bytes)[8] == '-'
  {
    hide HexOf;
    var hex := HexOf(bytes);
    var rest := "-" + hex[12..16] + "-" + hex[16..20] + "-" + hex[20..];
    assert Format(bytes) == hex[..8] + "-" + hex[8..12] + rest;
  }

  /** Without its hyphens the text is the sixteen bytes in order, two digits each. */
  lemma TextIsHex(bytes: seq<Byte>)
    requires |bytes| == 16
    ensures var s := Format(bytes);
            && BigEndian(bytes) < Power16(32)
            && s[..8] + s[9..13] + s[14..18] + s[19..23] + s[24..] == Hex(BigEndian(bytes), 32)
            && s[8] == s[13] == s[18] == s[23] == '-'
  {
    hide HexOf, BigEndian, Hex;
    HexOfIsHex(bytes);
    Ungrouped(HexOf(bytes));
  }

  lemma Ungrouped(hex: string)
    requires |hex| == 32
    ensures var s := hex[..8] + "-" + hex[8..12] + "-" + hex[12..16] + "-" + hex[16..20] + "-" + hex[20..];
            && |s| == 36 && s[..8] + s[9..13] + s[14..18] + s[19..23] + s[24..] == hex
            && s[8] == s[13] == s[18] == s[23] == '-'
  {
    var s := hex[..8] + "-" + hex[8..12] + "-" + hex[12..16] + "-" + hex[16..20] + "-" + hex[20..];
    assert s[..8] == hex[..8] && s[9..13] == hex[8..12] && s[14..18] == hex[12..16] && s[19..23] == hex[16..20];
    assert s[24..] == hex[20..];
  }

  function ReadTimestamp(text: string): Option<nat>
    requires |text| == 36
  {
    ParseHex(text[..8] + text[9..13])
  }

  /** A timestamp below 2^48 is read back; any other is read back modulo 2^48. */
  lemma TimestampReadsBack(bytes: seq<Byte>, timestamp: int, fill: seq<Byte>)
    requires HasLayout(bytes, timestamp, fill)
    ensures ReadTimestamp(Format(bytes)) == Some(Field(timestamp))
    ensures 0 <= timestamp < Power256(TIMESTAMP_BYTES) ==> ReadTimestamp(Format(bytes)) == Some(timestamp)
  {
    TextStartsWithField(bytes);
    HexParses(BigEndian(bytes[..6]), 12);
  }

  /** Earlier timestamps give smaller texts, whatever the random bytes. */
  lemma EarlierSortsFirst(bytes: seq<Byte>, t: int, fill: seq<Byte>, bytes': seq<Byte>, t': int, fill': seq<Byte>)
    requires HasLayout(bytes, t, fill) && HasLayout(bytes', t', fill')
    requires 0 <= t < t' < Power256(TIMESTAMP_BYTES)
    ensures TextBefore(Format(bytes), Format(bytes'))
  {
    var a, b := Format(bytes), Format(bytes');
    TextStartsWithField(bytes);
    TextStartsWithField(bytes');
    HexOrder(t, t', 12);
    var k :| DiffersAt(a[..8] + a[9..13], b[..8] + b[9..13], k);
    HyphenKeepsOrder(a, b, k);
  }

  lemma HyphenKeepsOrder(a: string, b: string, k: nat)
    requires |a| == |b| == 36 && a[8] == b[8]
    requires DiffersAt(a[..8] + a[9..13], b[..8] + b[9..13], k)
    ensures TextBefore(a, b)
  {
    var x, y := a[..8] + a[9..13], b[..8] + b[9..13];
    var at := if k < 8 then k else k + 1;
    assert x[k] == a[at] && y[k] == b[at];
    forall j | 0 <= j < at ensures a[j] == b[j] {
      var i := if j < 8 then j else j - 1;
      if j != 8 { assert x[..k][i] == y[..k][i]; }
    }
    assert DiffersAt(a, b, at);
  }

  /** The version digit is 7 and the variant digit one of 8, 9, a and b. */
  lemma VersionAndVariantShow(bytes: seq<Byte>, timestamp: int, fill: seq<Byte>)
    requires HasLayout(bytes, timestamp, fill)
    ensures Format(bytes)[14] == '7' && Format(bytes)[19] in {'8', '9', 'a', 'b'}
    ensures forall i | i in {8, 13, 18, 23} :: Format(bytes)[i] == '-'
  {
    ByteDigits(bytes, 6);
    ByteDigits(bytes, 8);
  }

  lemma ByteDigits(bytes: seq<Byte>, i: nat)
    requires i < |bytes|
    ensures HexOf(bytes)[2 * i] == Digit(bytes[i] / 16)
  {
    assert bytes == bytes[..i] + bytes[i..];
    HexOfConcat(bytes[..i], bytes[i..]);
    assert Power16(2) == 256;
    FirstDigit(bytes[i]);
    assert HexOf(bytes[i..])[0] == Hex(bytes[i], 2)[0];
  }

  lemma FirstDigit(b: Byte)
    requires b < Power16(2)
    ensures Hex(b, 2)[0] == Digit(b / 16)
  {
    assert Power16(1) == 16;
    assert Hex(b, 2) == Hex(b / 16, 1) + [Digit(b % 16)];
    assert Hex(b / 16, 1) == Hex(0, 0) + [Digit(b / 16)];
  }
}
